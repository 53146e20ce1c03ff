# DAN64 in Dafny

DAN64 is a small computer made of an AVR microcontroller: a 6502 virtual machine, an assembler and disassembler,
programs kept as sound on audio tape, a text screen drawn into a bitmap, a keyboard, and a few games. This project
models its logic and proves what holds of it for every input, every run and every interleaving.

The parts, with their files:

- Tape storage. `tape_decoder.dfy` has the frame and the seven-state decoder, `tape_signal.dfy` the encoder and its square
  wave, `tape_roundtrip.dfy` the edge interrupt and the way from samples back to bytes, `tape_save_load.dfy` the
  `save` and `load` loops as state machines that interleave with the interrupts, `tape_save_end.dfy` whether `save` ends,
  `tape_timing.dfy` the numbers of a recording and when its samples are played, `tape_works.dfy` that every program can
  be saved and loaded again. `ring.dfy` is the ring buffer that tape and keyboard share.
- Assembler and disassembler. `dasm_table.dfy` is the opcode table, `dasm_text.dfy` characters and numbers, `dasm.dfy` the
  assembler and disassembler as functions and their round trips, `dasm_grammar.dfy` the lines that the assembler takes and
  what they mean, `dasm_code.dfy` both as they run, `dasm_image.dfy` the command line tool's loops over a whole image.
- Virtual machine. `vm.dfy` is the machine as a step function, `vm_code.dfy` the machine as it runs, `vm_memory.dfy`
  the split and the flat memory, `vm_stack.dfy` calls and interrupts, `vm_arithmetic.dfy` numbers of many bytes,
  `vm_operations.dfy` what the operations compute, `vm_layout.dfy` their opcodes, `vm_programs.dfy` whole instructions
  over memory, `vm_boundaries.dfy` and `vm_shortening.dfy` the machine against the assembler.
- Console. `console.dfy` is the screen, `editor.dfy` the line editor, `keyboard.dfy` the keyboard.
- Games. `adventure.dfy` and `adventure_code.dfy` are the text adventure and `adventure_journey.dfy` its commands one by
  one and a way to win it; `yum.dfy` is the dice game and `yum_rules.dfy` its rules told from counts of the dice.
- `bits.dfy` has bytes, words and the bitwise operators.

Where the source changes things in place the model has a method or a class that does the same in loops and assignments, and
a function that says what it computes; the laws are proved of the function. Words and bytes are integers with the
wrap-around written out. Interrupts and main code are steps of one state machine in any order.

## Where the code differs from what one might expect

- The header of the opcode table says 153 rows; the table has 152. The model has 152 and takes 152 for "not found".
- A tape length of 0 stands for 65536, because the count goes up before it is compared (storage/storage.c:284-288), so
  the encoder and the decoder take recordings of 65536 bytes as well as shorter ones. `save` counts in 16 bits and so
  cannot make one, but it can save 0 bytes, and that recording no `load` ever accepts: it waits for 65536 bytes until it
  times out (`TapeSaveThenLoad.EmptySaveNeverLoads`).
- After an underrun the timer takes no more samples while `save` still waits for room for each of the rest of its byte, so
  `save` need not return (storage/storage.c:77-80, 190-195); `TapeSaveEnds.ReturnsUnlessStuck` says exactly when it can.
- The timer plays a sample every 5 overflows (storage/storage.c:183-187).
- Long and short half pulses stay apart up to an error of 13 ticks; 14 is too much. Both are proved.
- The assembler and the disassembler count branches from the address plus 1, the machine from the address plus 2
  (dasm/dasm.c:458, vm/vm.c:1001). The printed target is one less than where the machine goes
  (`InstructionBoundaries.BranchGoesPastTarget`).
- The table calls six (zp,X) opcodes zp,X, which makes six later rows repeats, and it calls 0x3d ORA where the machine
  does AND, which makes the seventh (dasm/dasm.c:35-186). An instruction that the assembler shortens into one of the six
  does not mean the same any more, and neither does an indexed operand that leaves the zero page; in all other cases the
  short form means the same. `Shortening.ExactlyWhen` proves that these are exactly the cases, for every mnemonic, operand
  and index, and two examples name states that differ.
- Typing in the middle of a line leaves the cursor on the new character (init/main.c:205-241).
- In Yum the low score is compared with the high score after its own row has been set, so a low score played before the
  high score is always 0 (cc65/examples/yum.c:798-804); `Yum.LowScoreExactly` says exactly when it counts.

## Model

| member | source | states |
|---|---|---|
| TapeDecoder.EndExactlyOnFrames | storage/storage.c:244-309 | the decoder reaches C_END on a byte stream if and only if the stream begins with a frame: 0xff, hi, lo, hi xor lo, n data bytes, their xor, with n = 256*hi + lo and 0 standing for 65536 |
| TapeDecoder.EndMeansFrame | storage/storage.c:233-309 | soundness: at C_END the consumed bytes are exactly the frame of the bytes that were written |
| TapeDecoder.FrameReachesEnd | storage/storage.c:233-309 | completeness: a frame, whatever follows it, ends in C_END with exactly its data written, its length stored (cut to 16 bits) and nothing beyond it consumed |
| TapeDecoder.ShortFrameWaits | storage/storage.c:244-309 | a frame that has not arrived completely is neither accepted nor rejected |
| TapeDecoder.EmptyFrameWaits | storage/storage.c:284-288 | the recording of no data, and each beginning of it, is neither accepted nor rejected: its parity is taken for the first of 65536 bytes |
| TapeDecoder.SingleErrorDetected | storage/storage.c:249-299 | replacing any one byte of a frame by another value never ends in C_END within it: the decoder returns an error or still waits when the frame is used up |
| TapeDecoder.DamagedIsNoFrame | storage/README.markdown:17-25 | no frame is, or begins, another frame with one byte changed |
| TapeFormat.ParityDetects | storage/storage.c:285-298 | changing one data byte changes the xor of all of them |
| TapeFormat.LengthField | storage/storage.c:364-366 | the two length bytes of a recording announce its 1 to 65536 data bytes |
| TapeDecoder.FeedTracksFormat | storage/storage.c:244-309 | from any beginning of a frame the decoder runs to the end of the frame, to the first byte that cannot be right, or to the end of the stream, whichever is first |
| TapeDecoder.Decoder.Decode | storage/storage.c:244-309 | the seven-state switch in place, field by field, is the step function of the other decoder rows |
| TapeDecoder.Decoder.Load | init/main.c:347-383 | over the bytes that come before a timeout, the byte loop of load stops at the first nonzero return or at C_END, as the feed function does |
| TapeEncoder.Encoder.HalfPulse | storage/storage.c:316-328 | one half pulse more, at the other level |
| TapeEncoder.Encoder.EncodeBits | storage/storage.c:330-337 | eight half pulses, least significant bit first, a long one for a 1; the level comes back |
| TapeEncoder.Encoder.EncodeByte | storage/storage.c:339-344 | the same, and the parity takes the byte in |
| TapeEncoder.Encoder.StartSignal | storage/storage.c:349-359 | one short half pulse, or two on the desktop, so that data starts at level 1 in both builds |
| TapeEncoder.Encoder.EncodeHeader | storage/storage.c:346-372 | sync, then magic, length high byte first, and their parity; the parity starts again at 0 |
| TapeEncoder.Encoder.EncodeEnd | storage/storage.c:374-382 | the data parity and two long half pulses; setting the level again changes nothing |
| TapeEncoder.Encoder.EncodeAll | storage/storage.c:316-382 | header, bytes and end write exactly the samples of the square wave of the frame |
| TapePlayback.TapeRoundTrip | storage/storage.c:201-229 | for 1 to 65536 bytes, both builds, and any timing error of at most 13 ticks an edge: the samples of a recording, cut into runs, measured, and received after four discarded edges, give exactly its frame and one or two stray bits, and the decoder ends with exactly the data |
| TapePlayback.FrameIsReceived | storage/storage.c:201-229 | the first half of this for any data, also none |
| TapePlayback.ToleranceIsThirteen | include/storage.h:55-61 | long and short half pulses are told apart, in both builds and for every measurement, if and only if the error is at most 13 ticks |
| TapePlayback.RunsOfWave | storage/storage.c:316-328 | constant-level runs of the samples are exactly the half pulses: neighbours never merge |
| TapePlayback.ReceiveBytes | storage/storage.c:217-228 | edges that classify as the bits of some bytes are received as those bytes |
| TapePlayback.HeardBits | storage/storage.c:207-218 | what is heard of a recording classifies as its half pulses after the sync |
| TapeReceiver.ReceiveByte | storage/storage.c:217-228 | eight classified edges put a byte together from its lowest bit up, and start the next one clean |
| TapeReceiver.ReceiveSync | storage/storage.c:208-215 | the first four edges only count |
| TapeReceiver.AudioIn.PinChange | storage/storage.c:201-229 | the pin change interrupt in place: its static bit, byte and sync count and the overwriting ring |
| TapeLoad.LoadsFrame | init/main.c:347-391 | for every interleaving of edges and the loop of load in which the ring never overflows and no timeout comes: once load has stopped or has nothing to read, a received frame has been loaded, with return value 0 |
| TapeLoad.LoadIsSound | init/main.c:347-391 | for every interleaving of any edges, the loop of load and a timeout at any moment, in which the ring never overflows: load returns 0 only after it has written exactly the data of a frame with which the received bytes begin |
| TapeLoad.EmptyNeverLoads | init/main.c:347-391 | when the recording of no data is received, only a timeout stops load, and it does not return 0 |
| TapeLoad.RunInStep | init/main.c:347-383 | what load has read so far, and what is still in the ring, is what the edges so far make, in order |
| TapeSave.SaveIsSafe | init/main.c:429-470 | for 0 to 65535 bytes, under every interleaving of save with the timer interrupt: samples played plus ring contents are the samples put so far, nothing unread is ever overwritten, and if save reports success the complete recording was played |
| TapeSaveEnds.ReturnsUnlessStuck | init/main.c:429-457 | at every moment of every interleaving save can still return if and only if it is not stuck: no underrun has come, or the rest of the byte that is being encoded fits into the ring |
| TapeSaveEnds.SaveCanSucceed | init/main.c:429-471 | for any 0 to 65535 bytes and from any start some schedule lets save report success |
| TapeSaveEnds.SaveCanHang | storage/storage.c:77-90 | and in some schedule it gets stuck: the interrupt finds the ring empty before the first sample and takes no more, so the wait for room never ends |
| TapeSaveEnds.StuckForEver | storage/storage.c:181-199 | once stuck it stays stuck, whatever follows |
| TapeSave.RunKeepsInvariant | storage/storage.c:77-90 | the invariant behind it holds after every step of main code and timer |
| TapeSave.MainKeepsInvariant | init/main.c:432-448 | each step of save keeps it |
| TapeSave.TimerKeepsInvariant | storage/storage.c:181-199 | each timer overflow keeps it |
| TapeSave.SoundIsRecording | init/main.c:393-397 | the samples that are queued are the recording at volume 32000, each cut to its high byte and shifted by 128 |
| TapeSave.AudioOut.Put | storage/storage.c:77-90 | once there is room, putting a sample appends it and the overwriting branch is not taken |
| TapeSave.AudioOut.TimerOverflow | storage/storage.c:181-199 | the timer interrupt in place: every fifth overflow takes the oldest sample, or fails for good when there is none |
| TapeTiming.SamplesAreDue | storage/storage.c:181-199 | over every run of save and timer from its start, until it fails, the samples played are a fifth of the timer overflows so far, counted with what the count started from, rounded down |
| TapeTiming.PlayedInTime | storage/storage.c:183-187 | and sample k comes exactly at overflow 5k + 5, less what the count started from |
| TapeTiming.FifthPlays | storage/storage.c:181-199 | from a count of 0 and with a sample ready, up to four overflows play nothing and leave the ring, and the fifth plays the oldest sample |
| TapeTiming.TicksAreOverflows | include/storage.h:49-61 | the time between any two samples is what the tape round trip takes it to be, 5 ticks for each sample |
| TapeNumbers.QueuedValues | init/main.c:393-397 | the byte that is queued for a sample is its 256th part around 128: 253 for 32000 and 3 for -32000 |
| TapeNumbers.SampleCounts | include/storage.h:49-61 | half pulses of 5 and 13 samples on the microcontroller and of 15 and 36 on the desktop |
| TapeNumbers.PulsesAreBits | storage/storage.c:330-337 | half pulse 8k + i after the sync is long exactly when bit i of byte k of the recording is 1 |
| TapeNumbers.WaveStarts | storage/storage.c:316-328 | the first half pulse has the level that it starts from, in as many samples as it is long |
| TapeNumbers.LevelsAlternate | storage/storage.c:349-359 | every recording ends at the level that it started from |
| TapeNumbers.AcceptsRecordings | storage/storage.c:249-299 | in plain numbers: the decoder accepts a stream if and only if it starts with 255, a high byte, a low byte, their exclusive or, that many data bytes and their parity |
| TapeNumbers.ParityCounts | storage/storage.c:285-298 | bit i of the parity says whether an odd number of the data bytes have bit i |
| TapeSaveThenLoad.SaveThenLoad | init/main.c:399-471 | 1 to 65535 bytes that save reports as saved are loaded again by any machine that hears them within 13 ticks an edge and whose load keeps up and does not time out |
| TapeSaveThenLoad.EmptySaveNeverLoads | init/main.c:399-471 | 0 bytes that save reports as saved are never loaded by a machine that hears them: only a timeout stops its load, which does not return 0 |
| TapeWorks.ProgramsComeBack | init/main.c:347-471 | for every program of 1 to 65535 bytes there is a run of save that reports success and a run of load that hears what was played, returns 0 and has the program: what the other laws assume can be met for all data |
| TapeWorks.RecordingLoads | storage/storage.c:201-229 | every recording of 1 to 65536 bytes, by either encoder, ending in an edge or not, has readings with which a machine that reads after every edge loads it |
| TapeWorks.PromptKeepsUp | init/main.c:347-383 | a machine that reads after every edge loses nothing of any beginning of a recording |
| TapeWorks.TimeoutEnds | init/main.c:346-383 | a timeout ends a load that has not stopped: whatever follows, it takes nothing more and does not return 0 |
| TapeNumbers.CanBeHeard | storage/storage.c:201-229 | every recording has readings within one tick an edge: 25 and 65 on the microcontroller, 21 and 51 from the desktop |
| Rings.AnyInterleaving | storage/storage.c:48-90 | under every interleaving of arrivals and reads a ring of n slots holds the newest unread items in order, at most n - 1; reads deliver a subsequence of the arrivals, and what is delivered, held and as many as came while the ring was full add up to what arrived |
| Rings.PlacesOf | storage/storage.c:60-75 | what is delivered stands at increasing places among what arrived |
| Rings.PutKeepsNewest | storage/storage.c:222-225 | an arrival is kept and of the unread items the newest that fit survive |
| Rings.GetTakesOldest | storage/storage.c:60-75 | a read takes the oldest unread item and leaves the others |
| Rings.Holds | storage/storage.c:48-58 | a ring holds at most one item less than it has slots; it is full exactly with that many, and ready exactly with at least one |
| Rings.RingBuffer.IsFull | storage/storage.c:48-52 | tells a full ring, in place |
| Rings.RingBuffer.Take | storage/storage.c:60-75 | the read in place, and 0 from an empty ring |
| Rings.RingBuffer.Put | storage/storage.c:83-89 | the overwriting arrival in place |
| Rings.RingBuffer.Flush | input/keyboard.c:37-41 | nothing is unread |
| AssemblerRoundTrip.InstructionRoundTrip | dasm/dasm.c:523-606 | text printed for any three bytes at any address, with any white space around it, assembles at that address to the same bytes if and only if the opcode is in the table, is none of the seven that repeat an earlier row, and the operand is not one the assembler shortens |
| AssemblerRoundTrip.AcceptedIsFixed | dasm/dasm.c:322-521 | for every line taken as an instruction with positive length, at any address: disassembling its bytes and assembling that text there gives the same bytes again |
| AssemblerRoundTrip.OperandsArePlain | dasm/dasm.c:221-249 | every accepted operand is a plain run of decimal digits, or of hexadecimal digits after a dollar sign, taken modulo 65536 |
| AssemblerGrammar.FormIsParsed | dasm/dasm.c:337-513 | every operand written by the grammar is accepted: nothing or A, # and a number, a number with nothing, X or Y behind it, a number in brackets with nothing, X inside or Y behind, in decimal or hexadecimal, of any number of digits, with any white space between, and has the mode and value it says |
| AssemblerGrammar.AcceptedIsWritten | dasm/dasm.c:221-513 | and nothing else is: each operand that the parser accepts is written by the grammar |
| AssemblerGrammar.RadixDoesNotMatter | dasm/dasm.c:221-249 | in each of these forms with a number, a number in decimal and the same number in hexadecimal are parsed alike |
| AssemblerGrammar.LineIsAssembled | dasm/dasm.c:251-521 | any line of white space, a mnemonic, white space and an operand of the grammar assembles to the opcode of its row and the low and high byte of its value, or is rejected when the mnemonic has no such row |
| AssemblerGrammar.AcceptedLineIsWritten | dasm/dasm.c:251-521 | each line that assembles to an instruction is such a line |
| AssemblerGrammar.CaseDoesNotMatter | dasm/dasm.c:325-328 | lines that differ only in case assemble alike |
| AssemblerGrammar.DecimalJump | dasm/dasm.c:433-446 | JMP and a decimal number of any length gives 0x4c, the low byte and the high byte of the number, modulo 65536 |
| AssemblerGrammar.InstructionIsPrinted | dasm/dasm.c:523-606 | the printed text is the mnemonic, a blank and the operand in the notation of its mode, in hexadecimal digits, two or four |
| AssemblerGrammar.LengthIsPrinted | dasm/dasm.c:536-606 | the length is one, two or three bytes by the mode, and one for what is no instruction |
| AssemblerGrammar.LineIsLeft | dasm/dasm.c:325-328 | a line is left in capitals, but for data lines and lines of less than three characters, which stay as they were |
| AssemblerGrammar.DigitsAre | dasm/dasm.c:226-241 | exactly 0 to 9 are decimal digits and exactly 0 to 9, a to f and A to F hexadecimal ones |
| AssemblerRoundTrip.UnfaithfulDiffers | dasm/dasm.c:447-495 | when the text of an instruction does not come back, it is rejected or its very first byte differs |
| AssemblerRoundTrip.UnfaithfulExamples | dasm/dasm.c:35-186 | with any operand 0x15 comes back as 0x01, and LDA with an absolute operand below 256 in its zero page form 0xa5 |
| AssemblerRoundTrip.OperandReadsBack | dasm/dasm.c:553-602 | the parser undoes the printer of each of the thirteen modes, but for the operands it shortens |
| AssemblerRoundTrip.TargetReadsBack | dasm/dasm.c:452-462 | the offset read from a printed branch target is the offset that was printed, around the ends of memory too |
| AssemblerRoundTrip.AcceptedSettled | dasm/dasm.c:337-513 | mode, length and value of an accepted operand agree, and a value that fits a short form the mnemonic has is already in it |
| AssemblerRoundTrip.UnknownIsRejected | dasm/dasm.c:536-540 | three question marks do not assemble |
| ImageTool.ImageRoundTrip | dasm/tools/dasm.c:140-194 | the short listing of an image made of whole instructions that ends by 0xffff, assembled from the same address, gives the image byte for byte and to the end if and only if every instruction in it comes back |
| ImageTool.Disassemble | dasm/tools/dasm.c:176-194 | the loop with its 16-bit counters writes the listing, for an image made of whole instructions |
| ImageTool.AssembleFile | dasm/tools/dasm.c:140-162 | the loop over lines of at most 31 characters writes the bytes that count and stops at the first syntax error |
| ImageTool.Fgets | dasm/tools/dasm.c:146-147 | a line ends after its newline or after 31 characters, and as a string at its first zero byte |
| ImageTool.RamRead | dasm/tools/dasm.c:38-43 | consecutive bytes, with the address wrapping around |
| ImageTool.LineEnds | dasm/tools/dasm.c:191-191 | a printed line is read back as one line |
| OpcodeTable.EveryRowOk | dasm/dasm.c:34-187 | the opcodes increase; each row has the opcode that a closed form gives its mnemonic and mode, or repeats an earlier row, and does so exactly for the seven listed opcodes; relative rows are exactly those of the eight branches. The closed form is the layout of the 6502 but for zp,X of ORA, AND, ADC, LDA, CMP and SBC, where it follows the table in giving the (zp,X) opcode, 0x01 for ORA |
| OpcodeTable.NamedBySpelling | dasm/dasm.c:34-187 | no two mnemonics are spelled alike |
| OpcodeLookup.RowByOpcode | dasm/dasm.c:528-534 | looking an opcode up finds its own row |
| OpcodeLookup.RowByMnemonic | dasm/dasm.c:198-209 | looking a row's mnemonic and mode up finds that row, or the earlier one that it repeats |
| OpcodeLookup.RelativeIsBranch | dasm/dasm.c:452-456 | a branch has no mode but relative, and nothing else has it |
| OpcodeLookup.FindMne | dasm/dasm.c:198-209 | the scan returns the first row of this mnemonic, and mode if one is given, or the row count |
| AssemblerCode.SkipWhitespace | dasm/dasm.c:189-196 | the pointer stops at the first character that is not white space |
| AssemblerCode.GetNumber | dasm/dasm.c:221-249 | the value and the step of a number, -1 without one |
| AssemblerCode.Indirect | dasm/dasm.c:370-431 | the three indirect forms, and the values left when the bracket is followed by something else |
| AssemblerCode.Direct | dasm/dasm.c:433-509 | zero page, relative, absolute and indexed forms, the short one if the value fits and the mnemonic has it |
| AssemblerCode.ParseOperand | dasm/dasm.c:337-513 | the switch on the first character of the operand |
| AssemblerCode.PutInCapitals | dasm/dasm.c:325-328 | the line is put in upper case in place, up to its terminator and no further |
| AssemblerCode.EmitOp | dasm/dasm.c:211-219 | one, two or three bytes are written, the low byte of the operand first, and the rest of the buffer stays |
| AssemblerCode.DasmAs | dasm/dasm.c:251-521 | the assembler in place: what it returns, what it writes and what it leaves in its input are those of the function in the assembler rows; a syntax error writes nothing |
| AssemblerCode.DasmDas | dasm/dasm.c:523-606 | the disassembler in place prints the text and returns the length of the function in the same rows |
| DasmText.OddRest | dasm/dasm.c:235-246 | after a number of which sscanf takes more than the digits comes neither the end, a bracket nor a comma |
| DasmText.HexValue | dasm/dasm.c:230-237 | hexadecimal digits after a dollar sign are read as they stand |
| DasmText.NumberOfHex4 | dasm/dasm.c:556-556 | four printed hexadecimal digits, in upper case, have the value that was printed |
| VirtualMachine.Vm.constructor | vm/vm.c:41-47 | the registers after a reset |
| VirtualMachine.Vm.Exec | vm/vm.c:48-1004 | one instruction in place, over registers, flags and the flat memory of the test harness, is the step function of the machine rows; an unknown opcode halts and changes nothing |
| VirtualMachine.Vm.Leave | vm/vm.c:345-351 | RTI, RTS, JSR, BRK, the jumps, pushes and pulls in place, with stack addresses that are not cut to 8 bits |
| VirtualMachine.Vm.AddWithCarry | vm/vm.c:619-646 | ADC in place, binary and decimal |
| VirtualMachine.Vm.SubtractWithBorrow | vm/vm.c:870-898 | SBC in place, binary and decimal, on 16-bit temporaries |
| VirtualMachine.Vm.ReadModifyWrite | vm/vm.c:280-308 | the shared tails of the operations that read a byte, change it and write it back |
| VirtualMachine.Vm.Resolve | vm/vm.c:608-618 | the address of each mode; a pointer at 0xff continues at 0x100 |
| VirtualMachine.Vm.ExecAll | init/main.c:548-554 | the loop around vm_exec, for at most a given number of instructions, runs until the machine halts, and tells whether it has not |
| SplitMemory.SplitRefinesFlat | init/syscall.c:55-109 | over every run in which no single access crosses 0xffff, registers, flags and the visible 64K are the same with 512 local bytes and external SRAM as with one flat array, after every number of steps |
| SplitMemory.StepIsFlat | vm/vm.c:48-1004 | the same for one instruction, with what crossing means for each: the fetch, an indirect jump's pointer, JSR with sp 0, BRK with sp below 2 |
| SplitMemory.LoadIsFlat | init/syscall.c:55-81 | a read that does not cross 0xffff gives the same bytes, also across the border at 512 |
| SplitMemory.StoreIsFlat | init/syscall.c:83-109 | so does a write |
| SplitMemory.WrappedLoad | init/syscall.c:71-80 | a read that wraps around is right exactly when the hidden first bytes of the SRAM equal those of the local memory |
| SplitMemory.WrappedStore | init/syscall.c:83-109 | a write that wraps around leaves the right visible 64K exactly when it would not have changed the local memory |
| SplitMemory.SplitRam.Read | init/syscall.c:55-81 | the split read in place, part by memcpy and part from the SRAM |
| SplitMemory.SplitRam.Write | init/syscall.c:83-109 | the split write in place |
| SplitMemory.SramRead | memory/mem.c:91-110 | sequential bytes, the chip counting the address around |
| SplitMemory.SramWrite | memory/mem.c:33-59 | sequential bytes, the chip counting the address around |
| CallStack.PullAnswersPush | vm/vm.c:408-416 | a push, any nested run that leaves its frame on top, and the matching pull: JSR comes back to its address plus 3, BRK to its address plus 2 with the flags of before, PLA gets the byte of PHA, PLP the flags; bits 4 and 5 of pulled flags are set and sp is as before |
| CallStack.RunKeepsStack | vm/vm.c:763-771 | in every nested run the live cells of page 1 are exactly the frames still open, newest lowest |
| CallStack.StepKeepsStack | vm/vm.c:900-924 | the same for one instruction of any kind, down to a completely full page |
| CallStack.PullTakesTop | vm/vm.c:345-351 | a pull gives back the newest frame and leaves the others |
| CallStack.CallerReturns | vm/vm.c:367-372 | an example: JSR at 0x0200 to an RTS at 0x0300 comes back to 0x0203 with sp as before |
| CallStack.ReturnAtOnce | vm/vm.c:408-416 | any push and the matching pull right after it |
| CallStack.JumpPushes | vm/vm.c:900-907 | each of the four pushes writes its frame just below the live cells |
| CallStack.ReturnAddress | vm/vm.c:367-372 | RTS adds the one that JSR left out, around the end of memory too |
| Machine.StatusOfByte | vm/vm.c:763-766 | pushing and pulling the flags keeps them |
| Machine.ByteOfStatus | include/vm.h:37-43 | every byte is the flags of one status |
| LongArithmetic.SumModulo | vm/vm.c:619-646 | chaining ADC from carry clear over two n-byte numbers gives their sum modulo 256^n, or modulo 100^n for valid decimal bytes, and the carry says whether it went past |
| LongArithmetic.DifferenceModulo | vm/vm.c:870-898 | chaining SBC from carry set gives the difference modulo 256^n or 100^n, and the carry says that nothing was borrowed |
| LongArithmetic.LongSum | vm/vm.c:619-646 | the same from any carry: nothing is lost but the carry, and decimal bytes stay valid |
| LongArithmetic.LongDifference | vm/vm.c:870-898 | the same from any borrow |
| LongArithmetic.LongOverflow | vm/vm.c:639-646 | in binary the last V says whether the signed sum does not fit in n bytes |
| LongArithmetic.LongDifferenceOverflow | vm/vm.c:890-898 | in binary the last V says whether the signed difference does not fit in n bytes |
| LongArithmetic.SbcIsAdcOfComplement | vm/vm.c:890-898 | in binary each SBC of m is ADC of 255 - m, in A and all flags |
| LongArithmetic.SbcDecidesSigned | vm/vm.c:891-898 | after a binary SBC exactly one of N and V is set if and only if the true signed difference is negative, V if and only if it does not fit in a byte, and C if and only if there is no unsigned borrow |
| LongArithmetic.AdcByte | vm/vm.c:622-645 | one byte of a sum in either radix |
| LongArithmetic.SbcByte | vm/vm.c:874-897 | one byte of a difference in either radix |
| Operations.Rotates | vm/vm.c:280-308 | ROL and ROR turn nine bits, the byte and the carry |
| Operations.RotationsUndo | vm/vm.c:667-695 | ROL and ROR undo each other |
| Operations.CompareDecides | vm/vm.c:808-815 | after CMP, CPX and CPY the branches decide by the unsigned order of the bytes |
| Operations.EorTwice | vm/vm.c:153-158 | EOR with the same byte twice gives A back |
| Operations.MaskBits | vm/vm.c:741-746 | AND, ORA and EOR bit by bit |
| Operations.LoadsTell | vm/vm.c:231-270 | LDA, LDX and LDY each load their own register and nothing else but N and Z; after them BPL, BMI, BEQ and BNE are taken by the sign of the byte and by whether it is zero |
| Operations.MasksTell | vm/vm.c:118-159 | AND, ORA and EOR change the accumulator, and the branches tell its sign and whether it is zero |
| Operations.BitTells | vm/vm.c:449-462 | BIT changes no register; BMI and BVS then tell the two highest bits of the byte, BEQ that it has no bit in common with the accumulator |
| Operations.CompareKeeps | vm/vm.c:99-116 | a comparison keeps the registers and the other flags, and N is bit 7 of the difference |
| Operations.AdcTells | vm/vm.c:619-646 | after a binary ADC, BVC is taken if and only if the signed sum fits in a byte, BCC if and only if the unsigned one does, and BMI and BEQ tell about the result |
| Operations.DecimalTells | vm/vm.c:624-640 | after a decimal ADC or SBC N and V are clear, Z tells about the result, and the other flags stay |
| Operations.ShiftsTell | vm/vm.c:379-406 | ASL doubles and LSR halves, the bit that falls out goes to C, and the branches tell about the result |
| Operations.CountsInMemory | vm/vm.c:168-189 | INC and DEC count around the byte, tell about the result and leave C |
| Operations.CountsUp | vm/vm.c:62-74 | n times INX or INY adds n to its register, modulo 256, through all its values |
| Operations.CountsDown | vm/vm.c:62-74 | n times DEX or DEY takes n away, modulo 256 |
| Operations.CountsBack | vm/vm.c:62-74 | counting up and down as often gives the register back |
| Operations.CountsTell | vm/vm.c:62-74 | each count tells about its own register and changes no other flag |
| Operations.TransfersOut | vm/vm.c:76-81 | TAX and TAY carry the accumulator to X and Y and tell about it |
| Operations.TransfersBack | vm/vm.c:360-365 | TXA and TYA carry X and Y to the accumulator and tell about it |
| Operations.StackTransfers | vm/vm.c:161-166 | TSX reads the stack pointer, TXS sets it and leaves the flags |
| Operations.FlagsDecide | vm/vm.c:374-377 | SEC, CLC, SEI, CLI, SED, CLD and CLV each change just their own bit of the packed flags, 1, 4, 8 or 64 |
| Operations.BranchesByOpcode | vm/vm.c:83-97 | the branches are the opcodes that end in 10000; the two highest bits choose N, V, C or Z and the third says whether it must be set |
| OpcodeLayout.DecodeIsLayout | vm/vm.c:54-1004 | for all 256 opcodes: operation and mode are those in the table of the 6502 by its fields of three, three and two bits, and the rest are unknown, but 0x02 |
| Programs.OperandInMemory | vm/vm.c:608-618 | for every opcode with an operand in memory: the instruction reads, writes or changes exactly the cell that its mode names in plain arithmetic, and goes on two or three bytes behind |
| Programs.OperandInCode | vm/vm.c:241-243 | an immediate operand is the second byte |
| Programs.OperandInAccumulator | vm/vm.c:383-386 | the shifts of the accumulator change it and the flags, and go on one byte behind |
| Programs.NoOperand | vm/vm.c:62-67 | the operations without operand change registers and flags only, and go on one byte behind |
| Programs.Branches | vm/vm.c:83-97 | a branch that is taken goes from behind itself as far as its signed offset says, and any other goes on two bytes behind |
| Programs.Jumps | vm/vm.c:326-335 | opcodes 0x4c and 0x6c go to their operand, or to the address in the two cells it names |
| Programs.Calls | vm/vm.c:408-416 | 0x20 leaves the address of its last byte in the two cells at the pointer in page 1, high byte above low byte, and goes to its operand |
| Programs.Returns | vm/vm.c:367-372 | 0x60 goes one behind the address in the two cells above the pointer |
| Programs.Pushes | vm/vm.c:768-772 | 0x48 and 0x08 leave the accumulator, or the packed flags with bits 4 and 5 set, in the cell at the pointer, which goes down |
| Programs.Pulls | vm/vm.c:913-919 | 0x68 and 0x28 bring them back from the cell above the pointer, which goes up |
| Programs.Breaks | vm/vm.c:900-911 | 0x00 pushes the address two bytes on and the flags with bits 4 and 5 set, forbids interrupts and goes to the address at 0xfffe |
| Programs.InterruptReturns | vm/vm.c:345-351 | 0x40 takes flags and address from the three cells above the pointer |
| Programs.LoopCounts | vm/vm.c:62-67 | the loop DEX, BNE back to it runs as often as X says, or 256 times for 0, two instructions a turn, and then X is 0, the program counter is behind it, and nothing else has changed but flags |
| InstructionBoundaries.RunFollowsListing | init/main.c:660-672 | over any straight run on unmodified code, from any address, the program counter is at the addresses that the list command prints, and the machine goes on there exactly unless the line is three question marks |
| InstructionBoundaries.SameInstructions | vm/vm.c:996-1003 | the machine executes exactly the opcodes that the disassembler knows, and with the same length |
| InstructionBoundaries.BranchGoesPastTarget | dasm/dasm.c:596-596 | a branch that is taken goes to the target that is printed and read plus 1, modulo 65536, and so never to that target |
| InstructionBoundaries.List | init/main.c:660-672 | the loop of the list command visits those addresses |
| DecodingTable.EveryRowDecodes | vm/vm.c:56-1001 | each row of the table decodes in the machine to its own mnemonic and mode, but for 0x3d and for the six (zp,X) opcodes that the table calls zp,X |
| DecodingTable.EveryOpcodePlaced | vm/vm.c:56-1001 | every opcode of the switch has a row |
| Shortening.ShortFormMeansTheSame | dasm/dasm.c:442-451 | for every mnemonic with both forms and every operand below 256 outside the instruction: one step of the short form that the assembler picks and one of the long form give the same registers, flags and memory outside the instruction, and a program counter one less, if indexing stays in the zero page and the short form is not mislabelled |
| Shortening.ExactlyWhen | dasm/dasm.c:442-451 | for every mnemonic with both forms, every operand below 256 and every index: the short form does the same as the long one in all states with the operand outside the instruction if and only if operand plus index is below 256 and the form is not one of the misread ones |
| Shortening.MisreadMnemonics | dasm/dasm.c:36-187 | the short form with X is misread exactly for ORA, AND, ADC, LDA, CMP and SBC |
| Shortening.AddressesAgree | vm/vm.c:608-618 | the two forms address the same byte exactly when operand plus index stays below 256 |
| Shortening.PickedMeaning | dasm/dasm.c:471-493 | which form the machine reads in the opcode that is picked |
| Shortening.MisreadExample | dasm/dasm.c:472-476 | LDA $0010,X and its short form 0xa1 load different bytes: the machine follows a pointer |
| Shortening.IndexOverflowExample | dasm/dasm.c:472-476 | LDY $0010,X with X = 255 and its short form load different bytes: the zero page wraps |
| FrameBuffer.Console.PutString | init/main.c:249-284 | after any text the 6144 bytes of the frame buffer are the rendering of the abstract 32 by 24 grid with wrap, tab, newline and scroll, the cursor is on it, and no other byte of memory has changed |
| FrameBuffer.Console.PutChar | init/main.c:249-284 | the same for one character |
| FrameBuffer.Console.ScrollUp | init/main.c:54-74 | copying 23 rows in blocks of 64 bytes and clearing the last shows the grid one row up with an empty row |
| FrameBuffer.Console.PutGlyph | video/video.c:113-125 | eight bytes change, and the grid has one character more |
| FrameBuffer.Console.Cls | video/video.c:96-111 | every cell shows the character, and the cursor goes home as in the callers |
| FrameBuffer.Pixels | video/video.c:113-125 | line l of the cell in column x and row y is the byte at 0x0200 + 32 * (8y + l) + x, and holds line l of the glyph of its character, or 0 |
| FrameBuffer.OutsideIsSame | include/video.h:30-35 | nothing below 0x0200 or from 0x1a00 on changes while characters are drawn |
| FrameBuffer.FrameIsLines | include/video.h:30-35 | the lines of the cells are exactly the bytes 0x0200 to 0x19ff |
| FrameBuffer.LinesApart | video/video.c:116-123 | different lines are at different addresses |
| FrameBuffer.ScrollShows | init/main.c:60-73 | a frame buffer moved up by one row renders the scrolled grid |
| Terminal.PlainTextLooks | init/main.c:249-284 | after clearing, plain text of any length fills the rows one after the other, the cursor is behind it, and the screen shows the end of it |
| Terminal.ControlCharacters | init/main.c:257-283 | a tab goes to the next multiple of 8, or over the edge to the next line; a new line at the bottom moves every row up by one |
| LineEditor.BufferedInput | init/main.c:76-247 | for any keys and any size of at least 1 the start of the buffer is the text of an abstract line with a cursor, which is on the text and the text below the size; return ends it with a zero; bytes from the size on are untouched |
| LineEditor.HandleKey | init/main.c:85-243 | the same for each key; typing in the middle leaves the cursor on the new character |
| LineEditor.RemoveAt | init/main.c:156-172 | the loop of backspace moves the rest one place down |
| LineEditor.InsertAt | init/main.c:225-238 | the loop of insertion moves the rest one place up |
| LineEditor.TypingGivesText | init/main.c:179-203 | characters and nothing else give the text, cut where the buffer is full |
| LineEditor.TypingInside | init/main.c:205-241 | for any characters a, b and c that fit: typing a, b, the left key as often as b is long, and c, leaves a, c, b |
| LineEditor.TypedInside | init/main.c:205-241 | a character typed inside a line stands between what was before the cursor and what was behind it |
| LineEditor.BackspaceInside | init/main.c:138-177 | backspace takes away exactly the character before the cursor |
| LineEditor.CursorMoves | init/main.c:95-123 | n times the left key, 0x10, moves n places left, but not past the start, and n times the right key, 0x11, n places right, but not past the end |
| LineEditor.BackspaceUndoes | init/main.c:138-177 | backspace takes a typed character back, at the end and, after a step to the right, in the middle |
| LineEditor.CursorKeys | init/main.c:95-123 | the cursor keys leave the text alone and undo each other |
| Keyboard.SessionTypesText | input/keyboard.c:43-103 | however the polls and the calls of keyboard_asc are placed: if no scan code came while the ring was full and all have been read, the characters other than 0 that were returned are those of the scan code sequence |
| Keyboard.StrokeTypesOnce | input/keyboard.c:80-99 | after any codes a key pressed and released types its character once, the shifted one under shift, and leaves shift and release as they were |
| Keyboard.ShiftHolds | input/keyboard.c:85-89 | shift is on from the press of either shift key to the release of either, and types nothing |
| Keyboard.WordIsTyped | input/keyboard.c:80-99 | after any codes, keys with codes up to 0x76 pressed and released one after the other (code, 0xf0, code) type their characters in order, the shifted ones if shift is on |
| Keyboard.ShiftedWord | input/keyboard.c:82-89 | between the press and the release of 0x12 or 0x59 they type the shifted ones, and shift is off after it |
| Keyboard.SilentCode | input/keyboard.c:90-97 | other codes above 0x76 type nothing and leave shift |
| Keyboard.TimingDoesNotMatter | input/keyboard.c:43-67 | the same for arrivals and reads in any order |
| Keyboard.CallIsEvents | input/keyboard.c:69-103 | one call does to the ring and to shift and release what its polls and reads do, and returns the character they type |
| Keyboard.InputFollows | input/keyboard.c:80-100 | the characters so far, and the shift and release state, are those of the scan codes delivered so far |
| Keyboard.Driver.PollOnce | input/keyboard.c:43-53 | a poll puts what it finds into the ring of 16, overwriting the oldest |
| Keyboard.Driver.TakeCode | input/keyboard.c:80-99 | the switch on a scan code in place |
| Keyboard.Driver.Ascii | input/keyboard.c:69-103 | the loop in place, which ends |
| Adventure.EveryGame | cc65/examples/adventure.c:769-821 | at every loop head of every game: each of the 16 items is in exactly one place, one inventory slot exactly when its location is 0; rooms 23 to 31 only with the door opened, room 18 only with the bookcase opened; the lit lamp filled and the bookcase opened; the wolf met only behind the door; and an unfinished game past turn 40, 50, 60 has eaten, drunk, and the lit lamp at hand |
| Adventure.CommandKeeps | cc65/examples/adventure.c:365-643 | every command keeps items, doors, lamp and wolf right |
| Adventure.TakeConserves | cc65/examples/adventure.c:397-438 | taking moves one item from its place into one free slot |
| Adventure.DropConserves | cc65/examples/adventure.c:365-394 | dropping moves it back |
| Adventure.MapIsGated | cc65/examples/adventure.c:201-235 | no fixed exit leads into the gated rooms from outside |
| Adventure.MatchesAtHand | cc65/examples/adventure.c:596-610 | matches can be used only after the bookcase has opened |
| Adventure.ActionsKeep | cc65/examples/adventure.c:662-725 | the checks after a command end the game that missed a clock, and a won one |
| Adventure.InitialHolds | cc65/examples/adventure.c:728-766 | a new game is right |
| Journeys.GameCanBeWon | cc65/examples/adventure.c:769-821 | the story can be brought to its good end: thirty given lines, from the driveway over hayloft and boy's bedroom through the locked door to the tree, win the game in thirty turns |
| Journeys.Walks | cc65/examples/adventure.c:441-484 | each direction, in the six forms that the help text allows, goes along its own column of the map, or, where there is no way, does not even take time |
| Journeys.WalkingBack | cc65/examples/adventure.c:201-235 | who goes somewhere and turns round is back, if and only if the way was none of six one-way ones |
| Journeys.DirectionWords | cc65/examples/adventure.c:441-475 | a direction is the word after the last space, or the line, and only its first letter matters |
| Journeys.AtHandMeans | cc65/examples/adventure.c:272-300 | each of the 16 items is found at hand if and only if it is in the inventory or its location is here |
| Journeys.Takes | cc65/examples/adventure.c:397-438 | taking an item that is here moves it to the inventory if a hand is free, in one turn; otherwise nothing happens |
| Journeys.Drops | cc65/examples/adventure.c:365-394 | dropping a carried item moves it here in one turn; otherwise nothing happens |
| Journeys.TakenAndDropped | cc65/examples/adventure.c:365-438 | taking and dropping again changes nothing but the time |
| Journeys.Uses | cc65/examples/adventure.c:544-643 | for each item at hand, exactly what using it changes, by place, state and what is carried; one that is not at hand changes nothing and takes no time |
| Journeys.Examines | cc65/examples/adventure.c:487-541 | examining takes a turn, and examining the bookcase opens the way from the bedroom to the servants' quarters |
| Journeys.QuitsOrIgnores | cc65/examples/adventure.c:776-811 | a confirmed Q ends the game, and lines with another first letter do nothing |
| Journeys.ActionsEnd | cc65/examples/adventure.c:662-725 | a game ends if and only if a clock of 40, 50 or 60 turns is missed, at the fourth command among the rats, or at the tree with the grandson safe; nothing else changes but the count of the rats |
| AdventureCode.Farmhouse.constructor | cc65/examples/adventure.c:728-766 | initialize in place |
| AdventureCode.Farmhouse.FindSlot | cc65/examples/adventure.c:272-281 | the first slot with an item of this name |
| AdventureCode.Farmhouse.FindItem | cc65/examples/adventure.c:284-300 | the number of an item name |
| AdventureCode.Farmhouse.DoDrop | cc65/examples/adventure.c:365-394 | drop in place, over the arrays |
| AdventureCode.Farmhouse.DoTake | cc65/examples/adventure.c:397-438 | take in place, over the arrays |
| AdventureCode.Farmhouse.DoGo | cc65/examples/adventure.c:441-484 | go in place |
| AdventureCode.Farmhouse.DoExamine | cc65/examples/adventure.c:487-541 | examine in place; the bookcase opens from anywhere |
| AdventureCode.Farmhouse.DoUse | cc65/examples/adventure.c:544-643 | use in place |
| AdventureCode.Farmhouse.DoActions | cc65/examples/adventure.c:662-725 | the checks after a command in place |
| AdventureCode.Farmhouse.TakeTurn | cc65/examples/adventure.c:776-811 | the dispatch on the first letter, and the checks |
| AdventureCode.Farmhouse.Play | cc65/examples/adventure.c:769-821 | the loop of a game over the lines typed; it keeps items and doors right |
| Yum.EveryGame | cc65/examples/yum.c:1076-1126 | in every game of up to 12 rounds, whatever is rolled, each pick of a computer player is a free row that can be played, after r rounds exactly r of the 12 rows are filled, a positive low score is below the high score, and the total is at most 279 |
| Yum.PickIsPlayable | cc65/examples/yum.c:978-1047 | while one of the 12 rows is free the pick is a free one of them, also in the first round when the three total rows are still unset |
| Yum.RoundKeeps | cc65/examples/yum.c:1080-1122 | one round keeps the sheet right and fills one row more |
| Yum.TotalIsPointsAndBonus | cc65/examples/yum.c:185-216 | the total is the points of the played rows and 25 more exactly when the upper section reaches 63, and never more than 279 |
| Yum.ScoreInRange | cc65/examples/yum.c:781-821 | each score is one its row can have, and a positive low score is below the high score |
| Yum.LowScoreExactly | cc65/examples/yum.c:798-804 | a free low score counts if and only if the dice show 21 or more and less than the high score played before; without one it is 0 |
| YumRules.RowScores | cc65/examples/yum.c:781-821 | what each of the twelve rows scores, told from how many dice show which number, and that a taken row or a total row stays |
| YumRules.TotalsAdd | cc65/examples/yum.c:185-216 | the sum of the upper six rows, 25 more for 63, and the sum of all, in their places |
| YumRules.FullHouse | cc65/examples/yum.c:361-369 | a full house is three of one number and two of another, or five alike |
| YumRules.LowStraight | cc65/examples/yum.c:309-319 | a low straight is each of 1 to 5 once |
| YumRules.HighStraight | cc65/examples/yum.c:325-335 | a high straight is each of 2 to 6 once |
| YumRules.PicksAlike | cc65/examples/yum.c:983-990 | with five alike the computer takes the yum, then the row of the number, then the full house, the first that is free |
| YumRules.PicksPattern | cc65/examples/yum.c:992-1006 | with a full house of two numbers, a high or a low straight it takes that row if it is free, whatever else is |
| YumRules.PicksMany | cc65/examples/yum.c:1007-1015 | with four or three of a number whose row is free it takes that row, but for a full house that counts |
| YumRules.PicksSums | cc65/examples/yum.c:1017-1029 | otherwise the high score from 22, then the low score from 21, as far as they count, then the lowest pair whose row is free |
| YumRules.PicksAnything | cc65/examples/yum.c:1031-1044 | and otherwise the highest die with a free row, or the lowest free row |
| Yum.UpdateTotals | cc65/examples/yum.c:185-216 | the three total rows become right, and every row to play keeps its score |
| YumCode.Table.NumberOf | cc65/examples/yum.c:292-303 | how many dice show a number |
| YumCode.Table.FindSame | cc65/examples/yum.c:385-433 | the lowest number that exactly so many dice show, or 0 |
| YumCode.Table.PickCategory | cc65/examples/yum.c:978-1047 | the computer's choice in place, over the score sheet and dice arrays |
| YumCode.Table.PlayCategory | cc65/examples/yum.c:781-821 | a category played in place changes one cell of one player, or none |
| YumCode.Table.UpdateScore | cc65/examples/yum.c:185-216 | the totals of all players in place |
| YumCode.Table.PlayRound | cc65/examples/yum.c:1080-1122 | one round of computer players |
| YumCode.Table.PlayGame | cc65/examples/yum.c:1076-1126 | a whole game of computer players: each sheet is the one of its own throws |

## Left out

- Hardware registers, SPI transfers, PAL timing, the video interrupt: the SRAM is an array, and waiting for the screen is
  nothing.
- The physical start of the sound: exactly four edges come before the first data bit, as the storage notes say.
- Prompts and messages in `load` and `save`, and how long a timeout of `load` takes: it can come at any moment.
- Fairness of `save`: what is proved is whether some schedule still lets it return, not that a given one does.
- What `decode` does after it has returned an error; both callers stop there.
- Lines that start with a full stop (data lines): the assembler model returns a mark for them, and the tool stops there.
- Number scanning of `sscanf` beyond 16 bits is modulo 65536, and a prefix without digits is no number; both matter only for
  lines that are rejected or have length 0.
- ImageTool.Disassemble: requires an image made of whole instructions that ends by 0xffff; otherwise the 16-bit counters of
  the loop can wrap and it need not end.
- AssemblerCode.DasmAs: takes lines of at most 255 characters, because the loop that puts the line in upper case counts in 8
  bits and never ends on a longer one, and no data lines.
- ImageTool.AssembleFile: its loop ends at a data line.
- VirtualMachine.Vm.ExecAll: bounds the number of instructions, because a program need not halt, and has no system call
  that ends the program.
- The long format of the disassembler, options and files of the tool; printing is that of a 16-bit `int` as on the AVR.
- SplitMemory.SplitRefinesFlat: system calls do nothing, as in the machine's test harness; what they do on the AVR (screen,
  keyboard, files, random numbers) is not modelled.
- CallStack.PullAnswersPush: excludes pushes past the bottom of page 1, where the code's addresses leave the page, and writes
  of other instructions to live cells.
- Cycle counts, and interrupts other than BRK, which the machine does not have.
- Drawing in `buffered_input`: the cursor on the screen and the redrawn characters; the text is what is modelled.
- LineEditor.BufferedInput: requires a size of at least 1, without which there is no room for the terminator.
- The other monitor commands, and `vsnprintf` in `put_string`: the text is what is printed.
- FrameBuffer.Console.Cls: the cursor is set by the callers of `video_cls`, and here with it.
- Adventure: the two entries of the map that change are fields; messages are left out; a line is what `prompt` leaves; the
  turn counter has 16 bits.
- Yum: rolling, re-rolling and sorting; the dice of a turn are any five sorted numbers from 1 to 6. Human players, who can
  pick a total row in the first round and so lose it, and names, winners and display.
- Font, keymap and binary generators, the cc65 runtime, the other example programs, `encode` and `decode` file handling.
