/** Calls and returns, interrupts, and pushes and pulls nest on the stack in page 1. */
module CallStack {
  import opened Bits
  import opened OpcodeTable
  import opened Machine
  import opened Execution
  import opened SplitMemory

  /** What one push leaves on the stack, with the address that its pull goes to. */
  datatype Frame =
    | Called(ret: word)
    | Interrupted(ret: word, flags: Status)
    | SavedByte(value: byte)
    | SavedFlags(flags: Status)

  /** The flags as they come back: bits 4 and 5 are set on the stack. */
  function Marked(s: Status): Status {
    s.(u := true, b := true)
  }

  /** The bytes of a frame, from the lowest address up. A call saves one less than the address it returns to. */
  function Cells(frame: Frame): (bytes: seq<byte>)
    ensures 1 <= |bytes| <= 3
  {
    match frame
    case Called(ret) => [Low(Wrap16(ret - 1)), High(Wrap16(ret - 1))]
    case Interrupted(ret, flags) => [ToByte(Marked(flags)), Low(ret), High(ret)]
    case SavedByte(value) => [value]
    case SavedFlags(flags) => [ToByte(Marked(flags))]
  }

  /** The newest frame is first, and lowest in memory. */
  function Layout(frames: seq<Frame>): seq<byte> {
    if frames == [] then [] else Cells(frames[0]) + Layout(frames[1..])
  }

  /** Where the live part of the stack starts, when it ends at the cell that `base` points to. */
  function Bottom(frames: seq<Frame>, base: byte): int {
    0x101 + base - |Layout(frames)|
  }

  /** The stack holds the frames and nothing has run past the bottom of page 1. */
  predicate Live(st: State, frames: seq<Frame>, base: byte) {
    && st.m.Flat?
    && Bottom(frames, base) >= 0x100
    && st.cpu.sp == Wrap8(Bottom(frames, base) - 1)
    && st.m.cells[Bottom(frames, base)..0x101 + base] == Layout(frames)
  }

  // --- One instruction --------------------------------------------------------------

  function Fetched(st: State): (f: seq<byte>)
    ensures |f| == 3
  {
    Load(st.m, st.cpu.pc, 3)
  }

  function Next(st: State): Instruction {
    Decode(Fetched(st)[0])
  }

  datatype Use = Pushes(frame: Frame) | Pulls(matches: bool) | Other

  /** How an operation uses the stack, and for a pull whether the newest frame is of its kind. */
  function UseFor(operation: Mnemonic, cpu: Cpu, frames: seq<Frame>): Use {
    match operation
    case JSR => Pushes(Called(Wrap16(cpu.pc + 3)))
    case BRK => Pushes(Interrupted(Wrap16(cpu.pc + 2), cpu.s))
    case PHA => Pushes(SavedByte(cpu.a))
    case PHP => Pushes(SavedFlags(cpu.s))
    case RTS => Pulls(frames != [] && frames[0].Called?)
    case RTI => Pulls(frames != [] && frames[0].Interrupted?)
    case PLA => Pulls(frames != [] && frames[0].SavedByte?)
    case PLP => Pulls(frames != [] && frames[0].SavedFlags?)
    case _ => Other
  }

  function UseOf(st: State, frames: seq<Frame>): Use {
    match Next(st)
    case Unknown => Other
    case Instruction(operation, _) => UseFor(operation, st.cpu, frames)
  }

  /** The operations that jump or use the stack. */
  predicate Leaves(operation: Mnemonic) {
    KindOf(operation) == Jumping || KindOf(operation) == Stacking
  }

  function EffectOf(st: State): Effect {
    if Next(st).Unknown? then Effect(st.cpu, NoWrite) else Execute(Next(st), st.m, st.cpu, Fetched(st))
  }

  /** The instruction nests: a push has room in page 1, a pull finds its own kind of frame, and anything else
      leaves the stack pointer and the live cells alone. */
  predicate Nests(st: State, frames: seq<Frame>, base: byte) {
    match UseOf(st, frames)
    case Pushes(frame) => Bottom(frames, base) - |Cells(frame)| >= 0x100
    case Pulls(matches) => matches
    case Other =>
      && (Next(st).Instruction? ==> Next(st).operation != TXS)
      && (EffectOf(st).write.Write? ==> !(Bottom(frames, base) <= EffectOf(st).write.addr < 0x101 + base))
  }

  function FramesAfter(st: State, frames: seq<Frame>): seq<Frame> {
    match UseOf(st, frames)
    case Pushes(frame) => [frame] + frames
    case Pulls(_) => if frames == [] then [] else frames[1..]
    case Other => frames
  }

  lemma PushedCells(cells: seq<byte>, bottom: word, end: word, bytes: seq<byte>)
    requires |cells| == SIZE && |bytes| <= bottom <= end
    ensures Put(cells, bottom - |bytes|, bytes)[bottom - |bytes|..end] == bytes + cells[bottom..end]
  {
    PutIsSplice(cells, bottom - |bytes|, bytes);
  }

  lemma CellsKept(cells: seq<byte>, bottom: word, end: word, addr: word, b: byte)
    requires |cells| == SIZE && bottom <= end && !(bottom <= addr < end)
    ensures Put(cells, addr, [b])[bottom..end] == cells[bottom..end]
  {
    PutIsSplice(cells, addr, [b]);
  }

  /** The stack pointer below live cells that start at `bottom`. */
  predicate Points(cpu: Cpu, bottom: int) {
    0x100 <= bottom <= 0x200 && cpu.sp == Wrap8(bottom - 1)
  }

  /** A push writes its frame just below the live cells. */
  predicate PushesFrame(e: Effect, frame: Frame, bottom: int) {
    var low := bottom - |Cells(frame)|;
    && low >= 0x100 && Points(e.cpu, low)
    && e.write.Write? && e.write.addr == low && e.write.bytes == Cells(frame)
  }

  lemma CallPushes(cpu: Cpu, target: word, bottom: int)
    requires Points(cpu, bottom) && bottom >= 0x102
    ensures PushesFrame(Call(cpu, target), Called(Wrap16(cpu.pc + 3)), bottom)
  {
    assert Wrap16(Wrap16(cpu.pc + 3) - 1) == Wrap16(cpu.pc + 2);
    assert cpu.sp == bottom - 0x101;
    hide Low, High, Wrap16;
  }

  lemma BreakPushes(m: memory, cpu: Cpu, bottom: int)
    requires Points(cpu, bottom) && bottom >= 0x103
    ensures PushesFrame(Break(m, cpu), Interrupted(Wrap16(cpu.pc + 2), cpu.s), bottom)
  {
    assert StackAddress(cpu.sp - 2) == bottom - 3 && Wrap8(cpu.sp - 3) == Wrap8(bottom - 4) by {
      hide Low, High, Wrap16, ToByte, Pointer, Store, Apply, Break, Cells;
    }
    hide Low, High, Wrap8, Wrap16, StackAddress, ToByte, Pointer, Store, Apply;
  }

  lemma BytePushes(cpu: Cpu, b: byte, bottom: int)
    requires Points(cpu, bottom) && bottom >= 0x101
    ensures var e := Push(cpu, b); e.write == Write(bottom - 1, [b]) && Points(e.cpu, bottom - 1)
  {
  }

  lemma JumpEffect(st: State)
    requires Next(st).Instruction? && Leaves(Next(st).operation)
    ensures var target := Address(st.m, st.cpu, Next(st).mode, Fetched(st));
            EffectOf(st) == Jump(Next(st).operation, st.m, st.cpu, target)
  {
    hide Next, Address, Jump, Fetched, KindOf, Straight;
  }

  lemma JumpPushes(operation: Mnemonic, m: memory, cpu: Cpu, target: word, frames: seq<Frame>, bottom: int)
    requires UseFor(operation, cpu, frames).Pushes? && Points(cpu, bottom)
    requires bottom - |Cells(UseFor(operation, cpu, frames).frame)| >= 0x100
    ensures PushesFrame(Jump(operation, m, cpu, target), UseFor(operation, cpu, frames).frame, bottom)
    ensures Leaves(operation)
  {
    hide ToByte, Call, Break, SetNZ, FromByte, Pulled, ReturnFromInterrupt, Return, Pull;
    match operation {
      case JSR => CallPushes(cpu, target, bottom);
      case BRK => BreakPushes(m, cpu, bottom);
      case PHA => BytePushes(cpu, cpu.a, bottom);
      case PHP => BytePushes(cpu, ToByte(Marked(cpu.s)), bottom);
    }
  }

  lemma PushEffect(st: State, frames: seq<Frame>, base: byte)
    requires Live(st, frames, base) && UseOf(st, frames).Pushes? && Nests(st, frames, base)
    ensures PushesFrame(EffectOf(st), UseOf(st, frames).frame, Bottom(frames, base))
  {
    hide Jump, EffectOf, Address, Next, Fetched, UseFor, KindOf, PushesFrame;
    var target := Address(st.m, st.cpu, Next(st).mode, Fetched(st));
    JumpPushes(Next(st).operation, st.m, st.cpu, target, frames, Bottom(frames, base));
    JumpEffect(st);
  }

  /** What a pull gives back. */
  predicate GivesBack(cpu: Cpu, frame: Frame) {
    match frame
    case Called(ret) => cpu.pc == ret
    case Interrupted(ret, flags) => cpu.pc == ret && cpu.s == Marked(flags)
    case SavedByte(value) => cpu.a == value
    case SavedFlags(flags) => cpu.s == Marked(flags)
  }

  /** The cells from `bottom` up hold the frame. */
  predicate HoldsFrame(m: memory, frame: Frame, bottom: word) {
    m.Flat? && bottom + |Cells(frame)| <= SIZE && m.cells[bottom..bottom + |Cells(frame)|] == Cells(frame)
  }

  lemma FrameLoads(m: memory, frame: Frame, bottom: word)
    requires HoldsFrame(m, frame, bottom)
    ensures Load(m, bottom, |Cells(frame)|) == Cells(frame)
  {
    hide Cells;
    TakeIsSlice(m.cells, bottom, |Cells(frame)|);
  }

  lemma FirstStackCell(cpu: Cpu, bottom: int)
    requires Points(cpu, bottom) && bottom < 0x200
    ensures StackAddress(cpu.sp + 1) == bottom && 256 + Wrap8(cpu.sp + 1) == bottom
    ensures Wrap8(cpu.sp + 1) == Wrap8(bottom) && Wrap8(cpu.sp + 2) == Wrap8(bottom + 1)
    ensures Wrap8(cpu.sp + 3) == Wrap8(bottom + 2)
  {
    assert cpu.sp == if bottom == 0x100 then 0xff else bottom - 0x101;
  }

  predicate PullsFrame(e: Effect, frame: Frame, bottom: int) {
    e.write == NoWrite && GivesBack(e.cpu, frame) && Points(e.cpu, bottom + |Cells(frame)|)
  }

  /** RTS adds the one that JSR left out, around the end of memory too. */
  lemma ReturnAddress(ret: word)
    ensures var saved := Wrap16(ret - 1);
            Wrap16(Word(Low(saved), High(saved)) + 1) == ret
  {
    var saved := Wrap16(ret - 1);
    assert saved == if ret == 0 then 0xffff else ret - 1;
    WordOfHalves(saved);
    hide Low, High, Word;
  }

  lemma ReturnPulls(m: memory, cpu: Cpu, ret: word, bottom: word)
    requires Points(cpu, bottom) && bottom + 2 <= 0x200 && HoldsFrame(m, Called(ret), bottom)
    ensures PullsFrame(Return(m, cpu), Called(ret), bottom)
  {
    hide Load, StackAddress, Wrap8, Low, High, HoldsFrame, Wrap16, Word;
    FrameLoads(m, Called(ret), bottom);
    FirstStackCell(cpu, bottom);
    ReturnAddress(ret);
  }

  lemma InterruptPulls(m: memory, cpu: Cpu, ret: word, flags: Status, bottom: word)
    requires Points(cpu, bottom) && bottom + 3 <= 0x200 && HoldsFrame(m, Interrupted(ret, flags), bottom)
    ensures PullsFrame(ReturnFromInterrupt(m, cpu), Interrupted(ret, flags), bottom)
  {
    hide Load, StackAddress, Wrap8, Low, High, HoldsFrame, FromByte, ToByte, Marked, Word;
    FrameLoads(m, Interrupted(ret, flags), bottom);
    FirstStackCell(cpu, bottom);
    WordOfHalves(ret);
    StatusOfByte(Marked(flags));
  }

  lemma BytePulls(m: memory, cpu: Cpu, frame: Frame, bottom: word)
    requires Points(cpu, bottom) && bottom + 1 <= 0x200 && HoldsFrame(m, frame, bottom) && |Cells(frame)| == 1
    ensures [Pulled(m, cpu)] == Cells(frame) && Points(Pull(cpu), bottom + 1)
  {
    hide Load, StackAddress, Wrap8, HoldsFrame, Cells;
    FrameLoads(m, frame, bottom);
    FirstStackCell(cpu, bottom);
  }

  lemma JumpPulls(operation: Mnemonic, m: memory, cpu: Cpu, target: word, frames: seq<Frame>, bottom: word)
    requires UseFor(operation, cpu, frames) == Pulls(true) && Points(cpu, bottom)
    requires HoldsFrame(m, frames[0], bottom) && bottom + |Cells(frames[0])| <= 0x200
    ensures PullsFrame(Jump(operation, m, cpu, target), frames[0], bottom) && Leaves(operation)
  {
    hide ToByte, FromByte, Load, Points, Call, Break, Push, Marked, SetNZ, HoldsFrame, Return,
         ReturnFromInterrupt, Pulled;
    match frames[0] {
      case Called(ret) => ReturnPulls(m, cpu, ret, bottom);
      case Interrupted(ret, flags) => InterruptPulls(m, cpu, ret, flags, bottom);
      case SavedByte(value) =>
        BytePulls(m, cpu, frames[0], bottom);
        assert [Pulled(m, cpu)][0] == value;
        SamePointer(Pull(cpu), Jump(operation, m, cpu, target).cpu, bottom + 1);
      case SavedFlags(flags) =>
        BytePulls(m, cpu, frames[0], bottom);
        assert [Pulled(m, cpu)][0] == ToByte(Marked(flags));
        StatusOfByte(Marked(flags));
        SamePointer(Pull(cpu), Jump(operation, m, cpu, target).cpu, bottom + 1);
    }
  }

  lemma SamePointer(a: Cpu, b: Cpu, bottom: int)
    requires a.sp == b.sp
    ensures Points(a, bottom) == Points(b, bottom)
  {
  }

  lemma TopFrame(st: State, frames: seq<Frame>, base: byte)
    requires Live(st, frames, base) && frames != []
    ensures HoldsFrame(st.m, frames[0], Bottom(frames, base))
    ensures Bottom(frames[1..], base) == Bottom(frames, base) + |Cells(frames[0])| <= 0x101 + base
  {
    hide Cells;
    var bottom, n := Bottom(frames, base), |Cells(frames[0])|;
    assert st.m.cells[bottom..0x101 + base][..n] == st.m.cells[bottom..bottom + n];
  }

  lemma PullEffect(st: State, frames: seq<Frame>, base: byte)
    requires Live(st, frames, base) && UseOf(st, frames) == Pulls(true)
    ensures frames != [] && PullsFrame(EffectOf(st), frames[0], Bottom(frames, base))
  {
    hide Jump, EffectOf, Address, Next, Fetched, KindOf, PullsFrame, HoldsFrame, Cells;
    TopFrame(st, frames, base);
    assert Points(st.cpu, Bottom(frames, base));
    hide Bottom, Live;
    var target := Address(st.m, st.cpu, Next(st).mode, Fetched(st));
    JumpPulls(Next(st).operation, st.m, st.cpu, target, frames, Bottom(frames, base));
    JumpEffect(st);
  }

  lemma RegistersKeepPointer(operation: Mnemonic, cpu: Cpu, t: byte)
    ensures Reads(operation, cpu, t).sp == cpu.sp
    ensures operation != TXS ==> Implieds(operation, cpu).sp == cpu.sp
  {
    hide Adc, Sbc, And, Or, Xor, Compare, SetNZ;
  }

  lemma StraightKeepsPointer(operation: Mnemonic, mode: Mode, cpu: Cpu, addr: word, t: byte)
    requires operation != TXS && !Leaves(operation) && KindOf(operation) != Branching
    ensures var e := Straight(operation, mode, cpu, addr, t);
            e.cpu.sp == cpu.sp && (e.write.Write? ==> |e.write.bytes| == 1)
  {
    hide Reads, Implieds, Modify, KindOf;
    RegistersKeepPointer(operation, cpu, t);
  }

  lemma JmpKeepsPointer(operation: Mnemonic, m: memory, cpu: Cpu, target: word)
    requires Leaves(operation) && UseFor(operation, cpu, []).Other?
    ensures Jump(operation, m, cpu, target) == Effect(cpu.(pc := target), NoWrite)
  {
  }

  lemma OtherEffect(st: State)
    requires UseOf(st, []).Other? && (Next(st).Instruction? ==> Next(st).operation != TXS)
    ensures EffectOf(st).cpu.sp == st.cpu.sp && (EffectOf(st).write.Write? ==> |EffectOf(st).write.bytes| == 1)
  {
    hide Next, Fetched, Straight, Jump, KindOf, UseFor, Address, OperandOf, Taken;
    if Next(st).Instruction? {
      var operation, mode, f := Next(st).operation, Next(st).mode, Fetched(st);
      var target := Address(st.m, st.cpu, mode, f);
      if Leaves(operation) {
        JumpEffect(st);
        JmpKeepsPointer(operation, st.m, st.cpu, target);
      } else if KindOf(operation) != Branching {
        StraightKeepsPointer(operation, mode, st.cpu, target, OperandOf(st.m, st.cpu, mode, f));
      }
    }
  }

  lemma StepIsEffect(st: State)
    ensures Step(st).state == State(EffectOf(st).cpu, Apply(st.m, EffectOf(st).write))
    ensures st.m.Flat? ==> Step(st).state.m.Flat?
  {
    hide Decode, Execute, Load, Store;
  }

  lemma StopsWhenUnknown(st: State)
    ensures Step(st).on <==> Next(st).Instruction?
    ensures !Step(st).on ==> Step(st).state == st
  {
    hide Decode, Execute, Load;
  }

  /** Every instruction that nests keeps the stack: its cells are the frames of the pushes not yet pulled. */
  lemma StepKeepsStack(st: State, frames: seq<Frame>, base: byte)
    requires Live(st, frames, base) && Nests(st, frames, base)
    ensures Live(Step(st).state, FramesAfter(st, frames), base)
  {
    var bottom, end, e := Bottom(frames, base), 0x101 + base, EffectOf(st);
    hide EffectOf, UseOf, Next, Step, Put, Cells;
    StepIsEffect(st);
    match UseOf(st, frames) {
      case Pushes(frame) =>
        PushEffect(st, frames, base);
        PushedCells(st.m.cells, bottom, end, Cells(frame));
        assert ([frame] + frames)[1..] == frames;
      case Pulls(_) =>
        PullEffect(st, frames, base);
        TopFrame(st, frames, base);
        var n := |Cells(frames[0])|;
        assert st.m.cells[bottom + n..end] == st.m.cells[bottom..end][n..];
      case Other =>
        UseDependsOn(st, frames);
        OtherEffect(st);
        if e.write.Write? {
          CellsKept(st.m.cells, bottom, end, e.write.addr, e.write.bytes[0]);
          assert e.write.bytes == [e.write.bytes[0]];
        }
    }
  }

  lemma UseDependsOn(st: State, frames: seq<Frame>)
    ensures UseOf(st, frames).Other? <==> UseOf(st, []).Other?
  {
    hide Next;
  }

  // --- Runs -------------------------------------------------------------------------

  /** Every instruction of a run nests. */
  predicate RunNests(st: State, frames: seq<Frame>, base: byte, n: nat)
    decreases n
  {
    hide Step, Nests, FramesAfter;
    n == 0 || (Nests(st, frames, base) && Step(st).on
               && RunNests(Step(st).state, FramesAfter(st, frames), base, n - 1))
  }

  function FramesAfterRun(st: State, frames: seq<Frame>, n: nat): seq<Frame>
    decreases n
  {
    hide Step, FramesAfter;
    if n == 0 then frames else FramesAfterRun(Step(st).state, FramesAfter(st, frames), n - 1)
  }

  /** In every nested run the live cells of the stack are exactly the frames still open. */
  lemma {:induction false} RunKeepsStack(st: State, frames: seq<Frame>, base: byte, n: nat)
    requires Live(st, frames, base) && RunNests(st, frames, base, n)
    ensures Live(Run(st, n), FramesAfterRun(st, frames, n), base)
    decreases n
  {
    hide Step, Nests, FramesAfter, Live;
    if n > 0 {
      StepKeepsStack(st, frames, base);
      RunKeepsStack(Step(st).state, FramesAfter(st, frames), base, n - 1);
    }
  }

  /** What the return of a frame gives back, with the stack pointer of before its push. */
  predicate Restores(cpu: Cpu, frame: Frame, before: Cpu) {
    GivesBack(cpu, frame) && cpu.sp == before.sp
  }

  /** A pull of the newest frame gives it back and leaves the others. */
  lemma PullTakesTop(st: State, frame: Frame, frames: seq<Frame>, base: byte)
    requires Live(st, [frame] + frames, base) && UseOf(st, [frame] + frames) == Pulls(true)
    ensures GivesBack(Step(st).state.cpu, frame) && Live(Step(st).state, frames, base)
  {
    assert Nests(st, [frame] + frames, base) && FramesAfter(st, [frame] + frames) == frames by {
      hide UseOf;
      assert ([frame] + frames)[1..] == frames;
    }
    hide Step, Nests, FramesAfter, UseOf, GivesBack, Live, EffectOf;
    PullEffect(st, [frame] + frames, base);
    StepIsEffect(st);
    StepKeepsStack(st, [frame] + frames, base);
  }

  /** A nested run is nested up to its last instruction, and that one nests too. */
  lemma {:induction false} RunPrefix(st: State, frames: seq<Frame>, base: byte, n: nat)
    requires RunNests(st, frames, base, n + 1)
    ensures RunNests(st, frames, base, n)
    ensures Nests(Run(st, n), FramesAfterRun(st, frames, n), base)
    ensures Run(st, n + 1) == Step(Run(st, n)).state
    decreases n
  {
    hide Step, Nests, FramesAfter;
    if n > 0 {
      RunPrefix(Step(st).state, FramesAfter(st, frames), base, n - 1);
    }
  }

  lemma SamePlace(st: State, other: State, frames: seq<Frame>, base: byte)
    requires Live(st, frames, base) && Live(other, frames, base)
    ensures st.cpu.sp == other.cpu.sp
  {
    hide Layout;
  }

  /** A push, any nested run that leaves its frame on top of the frames of before, and the pull of that frame:
      JSR comes back to its own address plus 3, BRK to its own plus 2 with the flags of before, PLA gets the byte
      that PHA pushed, and PLP the flags, bits 4 and 5 set. The stack pointer is as before the push. */
  lemma PullAnswersPush(st: State, frames: seq<Frame>, base: byte, n: nat)
    requires Live(st, frames, base) && UseOf(st, frames).Pushes? && RunNests(st, frames, base, n + 2)
    requires FramesAfterRun(st, frames, n + 1) == [UseOf(st, frames).frame] + frames
    requires UseOf(Run(st, n + 1), [UseOf(st, frames).frame] + frames) == Pulls(true)
    ensures Restores(Run(st, n + 2).cpu, UseOf(st, frames).frame, st.cpu)
    ensures Live(Run(st, n + 2), frames, base)
  {
    hide Step, Nests, FramesAfter, UseOf, GivesBack, Live, Run, RunNests;
    RunPrefix(st, frames, base, n + 1);
    RunKeepsStack(st, frames, base, n + 1);
    PullTakesTop(Run(st, n + 1), UseOf(st, frames).frame, frames, base);
    SamePlace(st, Run(st, n + 2), frames, base);
  }

  // --- An example -------------------------------------------------------------------

  /** `JSR $0300` at 0x0200, and RTS at 0x0300. */
  function Routine(k: nat): byte {
    if k == 0x200 then 0x20 else if k == 0x202 then 0x03 else if k == 0x300 then 0x60 else 0
  }

  function Caller(): State {
    State(Cpu(0, 0, 0, 0xff, FromByte(0), 0x200), Flat(seq(SIZE, k requires 0 <= k < SIZE => Routine(k))))
  }

  lemma JsrAndRts()
    ensures Decode(0x20) == Instruction(JSR, Absolute) && Decode(0x60) == Instruction(RTS, Implied)
  {
  }

  lemma CallerFetches()
    ensures Fetched(Caller()) == [0x20, 0x00, 0x03]
  {
  }

  lemma CallerPushes()
    ensures UseOf(Caller(), []) == Pushes(Called(0x203))
  {
    JsrAndRts();
    CallerFetches();
    hide Decode, Fetched, FromByte, Execute, Routine;
  }

  lemma CallerIsReady()
    ensures var st := Caller();
            UseOf(st, []) == Pushes(Called(0x203)) && Live(st, [], 0xff) && Nests(st, [], 0xff)
  {
    var st := Caller();
    CallerPushes();
    hide UseOf, FromByte, Routine, EffectOf, Next;
    assert st.m.cells[0x200..0x200] == [];
  }

  lemma CallerStep()
    ensures EffectOf(Caller()) == Call(Caller().cpu, 0x300) && Step(Caller()).on
  {
    var st := Caller();
    JsrAndRts();
    CallerFetches();
    assert Word(0x00, 0x03) == 0x300;
    hide Decode, Fetched, FromByte, Caller, Word;
    StopsWhenUnknown(st);
    JumpEffect(st);
    hide Step, EffectOf;
  }

  lemma CallerCalls()
    ensures var st := Step(Caller()).state;
            st.cpu.pc == 0x300 && st.m.Flat? && st.m.cells[0x300] == 0x60
  {
    var st := Caller();
    CallerStep();
    StepIsEffect(st);
    hide Step, EffectOf, FromByte;
    var w := Call(st.cpu, 0x300).write;
    assert w.addr == 0x1fe && |w.bytes| == 2;
    assert Put(st.m.cells, w.addr, w.bytes)[0x300] == 0x60;
  }

  lemma CalleeReturns(st: State)
    requires st.m.Flat? && st.cpu.pc == 0x300 && st.m.cells[0x300] == 0x60
    ensures UseOf(st, [Called(0x203)]) == Pulls(true) && Step(st).on
  {
    JsrAndRts();
    assert Fetched(st)[0] == 0x60;
    hide Decode, Fetched;
    StopsWhenUnknown(st);
    hide Step;
  }

  /** A push and the pull right after it nest. */
  lemma ReturnAtOnce(st: State, frame: Frame, base: byte)
    requires Live(st, [], base) && UseOf(st, []) == Pushes(frame) && Nests(st, [], base) && Step(st).on
    requires UseOf(Step(st).state, [frame]) == Pulls(true) && Step(Step(st).state).on
    ensures Restores(Run(st, 2).cpu, frame, st.cpu)
  {
    var callee := Step(st).state;
    assert [frame] + [] == [frame];
    assert FramesAfter(st, []) == [frame] && Nests(callee, [frame], base) by {
      hide UseOf, Live, Step, Bottom;
    }
    hide Step, Nests, FramesAfter, Live, UseOf, Restores;
    assert Run(st, 1) == Run(callee, 0) == callee;
    assert FramesAfterRun(st, [], 1) == FramesAfterRun(callee, [frame], 0) == [frame];
    assert RunNests(callee, [frame], base, 1) by {
      assert RunNests(Step(callee).state, FramesAfter(callee, [frame]), base, 0);
    }
    PullAnswersPush(st, [], base, 0);
  }

  /** The shortest nested run: a call that returns at once. */
  lemma CallerReturns()
    ensures Run(Caller(), 2).cpu.pc == 0x203 && Run(Caller(), 2).cpu.sp == 0xff
  {
    var st := Caller();
    assert st.cpu.sp == 0xff;
    hide Caller, Step, Nests, Live, UseOf, Run;
    CallerIsReady();
    CallerStep();
    CallerCalls();
    CalleeReturns(Step(st).state);
    ReturnAtOnce(st, Called(0x203), 0xff);
  }
}
