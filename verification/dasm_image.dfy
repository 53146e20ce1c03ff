/** The command line tool: disassembling a whole image to a listing, and assembling a listing. */
module ImageTool {
  import opened Bits
  import opened DasmText
  import opened OpcodeTable
  import opened OpcodeLookup
  import opened Assembler
  import opened AssemblerRoundTrip
  import opened AssemblerCode

  type memory = m: seq<byte> | |m| == 0x1_0000 witness seq(0x1_0000, _ => 0)

  // --- Disassembling ----------------------------------------------------------------

  /** `dasm_ram_read` of three bytes */
  function Fetch(ram: memory, addr: word): (op: seq<byte>)
    ensures |op| == 3
  {
    [ram[addr], ram[Wrap16(addr + 1)], ram[Wrap16(addr + 2)]]
  }

  function At(ram: memory, addr: word): (d: Disassembled)
    ensures 1 <= d.length <= 3
  {
    Das(addr, Fetch(ram, addr))
  }

  /** The image is made of whole instructions, an unknown byte counting as one, and ends below 0xffff. */
  predicate Tiled(ram: memory, addr: word, len: word)
    decreases len
  {
    hide At;
    && 0 < At(ram, addr).length <= len && addr + len <= 0xffff
    && (At(ram, addr).length < len ==> Tiled(ram, addr + At(ram, addr).length, len - At(ram, addr).length))
  }

  function Line(ram: memory, addr: word): string {
    "  " + At(ram, addr).text + "\n"
  }

  /** The output of the disassembler in short format. */
  function Listing(ram: memory, addr: word, len: word): string
    requires Tiled(ram, addr, len)
    decreases len
  {
    hide At, Line;
    var n := At(ram, addr).length;
    Line(ram, addr) + if n < len then Listing(ram, addr + n, len - n) else ""
  }

  lemma TiledStep(ram: memory, addr: word, len: word)
    requires Tiled(ram, addr, len)
    ensures var n := At(ram, addr).length;
            && 0 < n <= len && addr + len <= 0xffff && (n < len ==> Tiled(ram, addr + n, len - n))
            && Listing(ram, addr, len) == Line(ram, addr) + (if n < len then Listing(ram, addr + n, len - n) else "")
  {
    hide At, Line;
  }

  lemma Unfold(ram: memory, addr: word)
    ensures At(ram, addr) == Das(addr, Fetch(ram, addr)) && Fetch(ram, addr)[0] == ram[addr]
    ensures Line(ram, addr) == "  " + Das(addr, Fetch(ram, addr)).text + "\n"
  {
    hide Das;
  }

  /** `dasm_ram_read`, with a 16-bit address that moves. */
  method RamRead(ram: memory, start: word, dst: array<byte>)
    requires dst.Length == 3
    modifies dst
    ensures dst[..] == Fetch(ram, start)
  {
    var addr: int, i := start, 0;
    while i < 3
      invariant i <= 3 && addr == Wrap16(start + i)
      invariant forall k | 0 <= k < i :: dst[k] == Fetch(ram, start)[k]
    {
      dst[i] := ram[addr];
      addr := Wrap16(addr + 1);
      i := i + 1;
    }
  }

  /** The loop of the disassembler, whose counters have 16 bits. */
  method Disassemble(ram: memory, start: word, size: word) returns (listing: string)
    requires Tiled(ram, start, size)
    ensures listing == Listing(ram, start, size)
  {
    hide Tiled, Das, At, Line, Listing;
    var addr, len := start, size;
    var op := new byte[3];
    listing := "";
    while true
      invariant Tiled(ram, addr, len)
      invariant listing + Listing(ram, addr, len) == Listing(ram, start, size)
      decreases len
    {
      TiledStep(ram, addr, len);
      Unfold(ram, addr);
      RamRead(ram, addr, op);
      var text, n := DasmDas(addr, op);
      ghost var before := listing;
      listing := listing + ("  " + text + "\n");
      assert listing == before + Line(ram, addr);
      addr, len := Wrap16(addr + n), Wrap16(len - n);
      if !(addr < 0xffff && len > 0) {
        break;
      }
    }
  }

  // --- Assembling -------------------------------------------------------------------

  /** How many characters `fgets` takes for one line. */
  function LineLength(text: string, limit: nat): (n: nat)
    ensures n <= |text| && n <= limit
    ensures text != "" && limit > 0 ==> n > 0
  {
    if limit == 0 || text == "" then 0 else if text[0] == '\n' then 1 else 1 + LineLength(text[1..], limit - 1)
  }

  const LINE := 32

  /** The C string in a line that may hold zero bytes. */
  function UpToZero(s: string): (t: string)
    ensures |t| <= |s| && t == s[..|t|] && '\0' !in t
    ensures |t| < |s| ==> s[|t|] == '\0'
  {
    if s == "" || s[0] == '\0' then "" else [s[0]] + UpToZero(s[1..])
  }

  /** A line the model does not go into is a data line. */
  datatype Stop = EndOfFile | SyntaxError | DataLine

  datatype Output = Output(bytes: seq<byte>, stop: Stop)

  /** The bytes that count are as many as the length, which can be less than was written. */
  function Counted(a: Assembled): seq<byte>
    requires a.Assembled?
  {
    if a.length <= |a.bytes| then a.bytes[..a.length] else a.bytes
  }

  function Assemble(addr: word, text: string): Output
    decreases |text|
  {
    hide As;
    if text == "" then Output([], EndOfFile)
    else
      var n := LineLength(text, LINE - 1);
      match As(addr, UpToZero(text[..n]))
      case Rejected => Output([], SyntaxError)
      case Directive => Output([], DataLine)
      case Assembled(len, bytes) =>
        var rest := Assemble(Wrap16(addr + len), text[n..]);
        Output(Counted(As(addr, UpToZero(text[..n]))) + rest.bytes, rest.stop)
  }

  // --- The round trip ---------------------------------------------------------------

  /** Every instruction of the image is one that the assembler gives back. */
  predicate AllFaithful(ram: memory, addr: word, len: word)
    requires Tiled(ram, addr, len)
    decreases len
  {
    hide At, Faithful;
    var n := At(ram, addr).length;
    Faithful(Fetch(ram, addr)) && (n < len ==> AllFaithful(ram, addr + n, len - n))
  }

  predicate Printable(s: string) {
    forall i | 0 <= i < |s| :: s[i] >= ' '
  }

  lemma OperandIsPrintable(addr: word, mode: Mode, lo: byte, hi: byte)
    ensures Printable(OperandText(addr, mode, lo, hi)) && |OperandText(addr, mode, lo, hi)| <= 8
  {
    hide Target;
  }

  lemma TextIsPrintable(ram: memory, addr: word)
    ensures Printable(At(ram, addr).text) && |At(ram, addr).text| <= 12
  {
    var op := Fetch(ram, addr);
    var i := RowOfOpcode(op[0], 0);
    hide RowAt, Spell, OperandText;
    if i < ROWS {
      SpelledInCapitals(RowAt(i).mnemonic);
      OperandIsPrintable(addr, RowAt(i).mode, op[1], op[2]);
    }
  }

  lemma {:induction false} LineEnds(s: string, rest: string, limit: nat)
    requires Printable(s) && |s| < limit
    ensures LineLength(s + "\n" + rest, limit) == |s| + 1
  {
    var text := s + "\n" + rest;
    if s == "" {
      assert text[0] == '\n';
    } else {
      assert text[0] == s[0] && text[1..] == s[1..] + "\n" + rest;
      LineEnds(s[1..], rest, limit - 1);
    }
  }

  lemma FirstLine(ram: memory, addr: word, rest: string)
    ensures var text := Line(ram, addr) + rest;
            var n := LineLength(text, LINE - 1);
            text[..n] == UpToZero(text[..n]) == Line(ram, addr) && text[n..] == rest
  {
    TextIsPrintable(ram, addr);
    hide At;
    assert Line(ram, addr) == "  " + At(ram, addr).text + "\n";
    assert '\0' !in Line(ram, addr);
    LineEnds("  " + At(ram, addr).text, rest, LINE - 1);
  }

  lemma Blanks()
    ensures Blank("  ") && Blank("\n")
  {
  }

  lemma FetchIsImage(ram: memory, addr: word, n: nat)
    requires n <= 3 && addr + n <= 0xffff
    ensures Fetch(ram, addr)[..n] == ram[addr..addr + n]
  {
  }

  lemma AssembleLine(ram: memory, addr: word, rest: string)
    ensures Assemble(addr, Line(ram, addr) + rest)
         == match As(addr, Line(ram, addr))
            case Rejected => Output([], SyntaxError)
            case Directive => Output([], DataLine)
            case Assembled(len, bytes) =>
              var next := Assemble(Wrap16(addr + len), rest);
              Output(Counted(As(addr, Line(ram, addr))) + next.bytes, next.stop)
  {
    hide As, Line, LineLength, UpToZero;
    FirstLine(ram, addr, rest);
    assert Line(ram, addr) != "" by { Unfold(ram, addr); }
  }

  lemma UnfaithfulLine(ram: memory, addr: word, len: word, rest: string)
    requires !Faithful(Fetch(ram, addr)) && 0 < len && addr + len <= 0xffff
    ensures Assemble(addr, Line(ram, addr) + rest) != Output(ram[addr..addr + len], EndOfFile)
  {
    hide At, Fetch, Faithful, As, Line, Assemble;
    Unfold(ram, addr);
    Blanks();
    AssembleLine(ram, addr, rest);
    UnfaithfulDiffers(addr, Fetch(ram, addr), "  ", "\n");
    assert ram[addr..addr + len][0] == ram[addr];
  }

  lemma FaithfulBytes(ram: memory, addr: word)
    requires Faithful(Fetch(ram, addr)) && addr + At(ram, addr).length <= 0xffff
    ensures var n := At(ram, addr).length;
            var a := As(addr, Line(ram, addr));
            a.Assembled? && a.length == n && Counted(a) == ram[addr..addr + n]
  {
    hide At, Fetch, Faithful, As, Line, Das;
    Unfold(ram, addr);
    Blanks();
    FetchIsImage(ram, addr, At(ram, addr).length);
    InstructionRoundTrip(addr, Fetch(ram, addr), "  ", "\n");
  }

  lemma FaithfulLine(ram: memory, addr: word, len: word, rest: string)
    requires Faithful(Fetch(ram, addr)) && At(ram, addr).length <= len && addr + len <= 0xffff
    ensures var n := At(ram, addr).length;
            Assemble(addr, Line(ram, addr) + rest) == Output(ram[addr..addr + len], EndOfFile)
            <==> Assemble(addr + n, rest) == Output(ram[addr + n..addr + len], EndOfFile)
  {
    hide At, Fetch, Faithful, As, Line, Assemble, Counted;
    var n := At(ram, addr).length;
    FaithfulBytes(ram, addr);
    AssembleLine(ram, addr, rest);
    assert ram[addr..addr + len] == ram[addr..addr + n] + ram[addr + n..addr + len];
  }

  /** Disassembling an image in short format and assembling the listing from the same address gives the image,
      byte for byte and to the end, if and only if every instruction in it is faithful. */
  lemma {:induction false} ImageRoundTrip(ram: memory, addr: word, len: word)
    requires Tiled(ram, addr, len)
    ensures Assemble(addr, Listing(ram, addr, len)) == Output(ram[addr..addr + len], EndOfFile)
        <==> AllFaithful(ram, addr, len)
    decreases len
  {
    hide At, Fetch, Faithful, As, Tiled, Line, Listing, Assemble;
    var n := At(ram, addr).length;
    TiledStep(ram, addr, len);
    var rest := if n < len then Listing(ram, addr + n, len - n) else "";
    if Faithful(Fetch(ram, addr)) {
      FaithfulLine(ram, addr, len, rest);
      if n < len {
        ImageRoundTrip(ram, addr + n, len - n);
      } else {
        EmptyListing(addr + n);
      }
    } else {
      UnfaithfulLine(ram, addr, len, rest);
    }
  }

  lemma EmptyListing(addr: word)
    ensures Assemble(addr, "") == Output([], EndOfFile)
  {
    hide As;
  }

  // --- The loop of the assembler ----------------------------------------------------

  /** `fgets`: the start of the file goes into the buffer, with a terminator; a zero byte ends the string early. */
  method Fgets(buffer: array<char>, file: string) returns (n: nat)
    requires buffer.Length >= LINE
    modifies buffer
    ensures n == LineLength(file, LINE - 1) && buffer[..n] == file[..n] && Holds(buffer, UpToZero(file[..n]))
  {
    n := 0;
    while n < LINE - 1 && n < |file| && (n == 0 || file[n - 1] != '\n')
      invariant n <= LINE - 1 && n <= |file| && buffer[..n] == file[..n]
      invariant LineLength(file, LINE - 1)
             == if n > 0 && file[n - 1] == '\n' then n else n + LineLength(file[n..], LINE - 1 - n)
    {
      buffer[n] := file[n];
      assert file[n..][1..] == file[n + 1..];
      n := n + 1;
    }
    buffer[n] := '\0';
    ghost var line := UpToZero(file[..n]);
    assert buffer[|line|] == '\0' by {
      assert |line| < n ==> buffer[..n][|line|] == '\0';
    }
    assert buffer[..|line|] == file[..n][..|line|];
  }

  lemma CountedIsWritten(addr: word, line: string)
    requires As(addr, line).Assembled?
    ensures As(addr, line).length <= |As(addr, line).bytes|
  {
    hide Parse, Skip, Upper, FindMnemonic, RowAt;
    var u := Upper(Skip(line));
    var s := Skip(u[3..]);
    if Parse(u[..3], addr, s).length > 0 {
      AcceptedSettled(u[..3], addr, s);
    }
  }

  /** One line: the bytes that count, or why the assembler stops. */
  method AssembleLineOf(addr: word, ram: array<char>, op: array<byte>, ghost line: string)
    returns (ok: bool, stop: Stop, length: nat, bytes: seq<byte>)
    requires Holds(ram, line) && |line| < 256 && op.Length == 3
    modifies ram, op
    ensures match As(addr, line)
            case Assembled(n, _) => ok && length == n && bytes == Counted(As(addr, line))
            case Rejected => !ok && stop == SyntaxError
            case Directive => !ok && stop == DataLine
  {
    hide As, Holds, Skip;
    ok, stop, length, bytes := false, DataLine, 0, [];
    StartsWithStop(addr, line);
    assert line[0..] == line;
    var first := SkipWhitespace(ram, line, 0);
    if ram[first] == '.' {
      return;
    }
    var len := DasmAs(addr, ram, line, op);
    if len < 0 {
      stop := SyntaxError;
      return;
    }
    CountedIsWritten(addr, line);
    ok, length, bytes := true, len, op[..len];
  }

  /** The loop of the assembler: the bytes it writes, and why it stops. */
  method AssembleFile(start: word, text: string) returns (bytes: seq<byte>, stop: Stop)
    ensures Output(bytes, stop) == Assemble(start, text)
  {
    hide As, LineLength, Holds, Counted, UpToZero;
    var addr: int, file := start, text;
    var ram, op := new char[LINE], new byte[3];
    bytes := [];
    while file != ""
      invariant 0 <= addr < 0x1_0000
      invariant Assemble(start, text) == Output(bytes + Assemble(addr, file).bytes, Assemble(addr, file).stop)
      decreases |file|
    {
      var n := Fgets(ram, file);
      var ok, why, len, out := AssembleLineOf(addr, ram, op, UpToZero(file[..n]));
      if !ok {
        return bytes, why;
      }
      bytes := bytes + out;
      addr := Wrap16(addr + len);
      file := file[n..];
    }
    return bytes, EndOfFile;
  }

  lemma StartsWithStop(addr: word, line: string)
    ensures As(addr, line) == Directive <==> Skip(line) != "" && Skip(line)[0] == '.'
  {
    hide Skip, FindMnemonic, Parse, Emit, RowAt;
  }
}
