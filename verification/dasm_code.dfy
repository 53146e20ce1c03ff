/** `dasm_as` and `dasm_das` as they run: a pointer moving over a line that is put in upper case in place, and
    bytes written through an output pointer. */
module AssemblerCode {
  import opened Bits
  import opened DasmText
  import opened OpcodeTable
  import opened OpcodeLookup
  import opened Assembler

  /** A C string in a buffer. */
  ghost predicate Holds(buffer: array<char>, text: string)
    reads buffer
  {
    |text| < buffer.Length && buffer[..|text|] == text && buffer[|text|] == '\0' && '\0' !in text
  }

  /** What reading the character at a pointer says about the string there. */
  ghost predicate Reads(s: array<char>, text: string, p: nat)
    requires p <= |text|
    reads s
  {
    && p < s.Length
    && (s[p] == '\0' <==> text[p..] == "")
    && (text[p..] != "" ==> s[p] == text[p..][0] && text[p..][1..] == text[p + 1..])
  }

  lemma CharAt(s: array<char>, text: string, p: nat)
    requires Holds(s, text) && p <= |text|
    ensures Reads(s, text, p)
  {
    assert p < |text| ==> s[..|text|][p] == text[p];
  }

  method SkipWhitespace(s: array<char>, ghost text: string, p: nat) returns (q: nat)
    requires Holds(s, text) && p <= |text|
    ensures p <= q <= |text| && text[q..] == Skip(text[p..]) && Reads(s, text, q)
  {
    q := p;
    while s[q] != '\0' && IsSpace(s[q])
      invariant p <= q <= |text| && Skip(text[q..]) == Skip(text[p..])
      decreases |text| - q
    {
      CharAt(s, text, q);
      q := q + 1;
    }
    CharAt(s, text, q);
  }

  /** The string at a pointer, which `sscanf` is given. */
  method Tail(s: array<char>, ghost text: string, p: nat) returns (t: string)
    requires Holds(s, text) && p <= |text|
    ensures t == text[p..]
  {
    var q := p;
    while s[q] != '\0'
      invariant p <= q <= |text|
      decreases |text| - q
    {
      q := q + 1;
    }
    t := s[p..q];
  }

  /** The loop that steps over the digits of a number. */
  method StepDigits(s: array<char>, ghost text: string, p: nat, base: nat) returns (q: nat)
    requires Holds(s, text) && p <= |text|
    ensures q == p + Run(text[p..], base) <= |text|
  {
    q := p;
    while s[q] != '\0' && IsDigit(s[q], base)
      invariant p <= q <= |text| && Run(text[q..], base) + (q - p) == Run(text[p..], base)
      decreases |text| - q
    {
      assert text[q..][1..] == text[q + 1..];
      q := q + 1;
    }
  }

  /** `get_value`, with -1 for its error. */
  method GetNumber(s: array<char>, ghost text: string, p: nat) returns (length: int, value: word)
    requires Holds(s, text) && p <= |text|
    ensures match GetValue(text[p..])
            case NoValue => length == -1
            case Value(n, v) => length == n && value == v
  {
    hide Run, Scan;
    if s[p] == '\0' {
      return -1, 0;
    }
    var q, base := p, 10;
    if s[p] == '$' {
      if s[p + 1] == '\0' {
        return -1, 0;
      }
      q, base := p + 1, 16;
      assert text[p..][1..] == text[q..];
    }
    var rest := Tail(s, text, q);
    var end := StepDigits(s, text, q, base);
    match Scan(rest, base) {
      case NoNumber => return -1, 0;
      case Scanned(v) => return end - p, v;
    }
  }

  /** The addressing mode, the length and the value that parsing leaves behind, or a syntax error. */
  function Left(ok: bool, mode: Mode, length: nat, value: word): Operand {
    if ok then Operand(mode, length, value) else BadOperand
  }

  /** After `(n)`: either the end or an index. */
  method AfterBracket(s: array<char>, ghost text: string, start: nat, value: word)
    returns (ok: bool, mode: Mode, length: nat)
    requires Holds(s, text) && start <= |text|
    ensures Left(ok, mode, length, value) == ClosedBracket(value, text[start..])
  {
    hide Skip, Holds;
    var p := start;
    CharAt(s, text, p);
    if s[p] == '\0' {
      return true, IndirectAbsolute, 3;
    }
    if s[p] != ',' {
      return false, Implied, 0;
    }
    p := p + 1;
    CharAt(s, text, p);
    if s[p] != 'Y' {
      return false, Implied, 0;
    }
    assert text[start..][2..] == text[p + 1..];
    p := SkipWhitespace(s, text, p + 1);
    if s[p] != '\0' {
      return false, Implied, 0;
    }
    mode, length := IndirectIndexed, 2;
    ok := value <= 0xff;
  }

  /** After `(n,`: the index, and the bracket. */
  method InsideBracket(s: array<char>, ghost text: string, start: nat, value: word)
    returns (ok: bool, mode: Mode, length: nat)
    requires Holds(s, text) && start <= |text|
    ensures Left(ok, mode, length, value) == IndexInBracket(value, text[start..])
  {
    hide Skip, Holds;
    var p := start;
    CharAt(s, text, p);
    if s[p] != 'X' {
      return false, Implied, 0;
    }
    p := SkipWhitespace(s, text, p + 1);
    if s[p] != ')' {
      return false, Implied, 0;
    }
    p := SkipWhitespace(s, text, p + 1);
    if s[p] != '\0' {
      return false, Implied, 0;
    }
    mode, length := IndexedIndirect, 2;
    ok := value <= 0xff;
  }

  /** The case of an opening bracket, with the pointer after it. */
  method Indirect(s: array<char>, ghost text: string, start: nat)
    returns (ok: bool, mode: Mode, length: nat, value: word)
    requires Holds(s, text) && start <= |text|
    ensures Left(ok, mode, length, value) == ParseIndirect(text[start..])
  {
    hide Skip, GetValue, Holds, ClosedBracket, IndexInBracket, Run, Scan, Has, Upper;
    ok, mode, length := false, Implied, 0;
    var n, v := GetNumber(s, text, start);
    value := v;
    if n < 0 {
      return;
    }
    assert text[start..][n..] == text[start + n..];
    var p := SkipWhitespace(s, text, start + n);
    if s[p] == ')' {
      p := SkipWhitespace(s, text, p + 1);
      ok, mode, length := AfterBracket(s, text, p, value);
    } else if s[p] == ',' {
      p := SkipWhitespace(s, text, p + 1);
      ok, mode, length := InsideBracket(s, text, p, value);
    } else {
      ok := true;
    }
  }

  /** After `n,`: the index. */
  method AfterComma(s: array<char>, ghost text: string, start: nat, mne: string, value: word)
    returns (ok: bool, mode: Mode, length: nat)
    requires Holds(s, text) && start <= |text|
    ensures Left(ok, mode, length, value) == ParseIndex(mne, value, text[start..])
  {
    hide Skip, Holds, FindMnemonic;
    var p := start;
    CharAt(s, text, p);
    if s[p] == 'X' {
      mode, length := AbsoluteX, 3;
      var short := FindMne(mne, Only(ZeroPageX));
      if value <= 0xff && short != ROWS {
        mode, length := ZeroPageX, 2;
      }
    } else if s[p] == 'Y' {
      mode, length := AbsoluteY, 3;
      var short := FindMne(mne, Only(ZeroPageY));
      if value <= 0xff && short != ROWS {
        mode, length := ZeroPageY, 2;
      }
    } else {
      return false, Implied, 0;
    }
    p := SkipWhitespace(s, text, p + 1);
    ok := s[p] == '\0';
  }

  /** A number and nothing else. */
  method NoIndex(mne: string, addr: word, number: word) returns (mode: Mode, length: nat, value: word)
    ensures Operand(mode, length, value) == Unindexed(mne, addr, number)
  {
    hide FindMnemonic;
    mode, length, value := Absolute, 3, number;
    var zeroPage := FindMne(mne, Only(ZeroPage));
    if value <= 0xff && zeroPage != ROWS {
      mode, length := ZeroPage, 2;
    } else {
      var relative := FindMne(mne, Only(Relative));
      if relative != ROWS {
        mode, length, value := Relative, 2, Wrap8(value - addr - 1);
      }
    }
  }

  /** The case of a digit or a dollar sign. */
  method Direct(s: array<char>, ghost text: string, start: nat, mne: string, addr: word)
    returns (ok: bool, mode: Mode, length: nat, value: word)
    requires Holds(s, text) && start <= |text|
    ensures Left(ok, mode, length, value) == ParseDirect(mne, addr, text[start..])
  {
    hide Skip, GetValue, FindMnemonic, Holds, ParseIndex, Unindexed, Run, Scan;
    ok, mode, length := false, Implied, 0;
    var n, v := GetNumber(s, text, start);
    value := v;
    if n < 0 {
      return;
    }
    assert text[start..][n..] == text[start + n..];
    var p := SkipWhitespace(s, text, start + n);
    if s[p] == '\0' {
      ok := true;
      mode, length, value := NoIndex(mne, addr, value);
    } else if s[p] == ',' {
      p := SkipWhitespace(s, text, p + 1);
      ok, mode, length := AfterComma(s, text, p, mne, value);
    }
  }

  /** The switch on the first character of the operand. */
  method ParseOperand(s: array<char>, ghost text: string, start: nat, mne: string, addr: word)
    returns (ok: bool, mode: Mode, length: nat, value: word)
    requires Holds(s, text) && start <= |text|
    ensures Left(ok, mode, length, value) == Parse(mne, addr, text[start..])
  {
    hide Skip, GetValue, ParseIndirect, ParseDirect;
    var p := start;
    ok, mode, length, value := false, Implied, 0, 0;
    if s[p] == '\0' {
      ok, length := true, 1;
    } else if s[p] == 'A' {
      p := SkipWhitespace(s, text, p + 1);
      ok, mode, length := s[p] == '\0', Accumulator, 1;
    } else if s[p] == '#' {
      var n, v := GetNumber(s, text, p + 1);
      if n < 0 || v > 0xff {
        return;
      }
      assert text[p + 1..][n..] == text[p + 1 + n..];
      p := SkipWhitespace(s, text, p + 1 + n);
      ok, mode, length, value := s[p] == '\0', Immediate, 2, v;
    } else if s[p] == '(' {
      ok, mode, length, value := Indirect(s, text, p + 1);
    } else if IsDigit(s[p], 10) || s[p] == '$' {
      ok, mode, length, value := Direct(s, text, p, mne, addr);
    }
  }

  /** `strlen` */
  method Strlen(s: array<char>, ghost text: string, p: nat) returns (n: nat)
    requires Holds(s, text) && p <= |text|
    ensures n == |text[p..]|
  {
    n := 0;
    while s[p + n] != '\0'
      invariant p + n <= |text|
      decreases |text| - n
    {
      n := n + 1;
    }
  }

  lemma UpperKeepsEnd(u: string)
    requires '\0' !in u
    ensures '\0' !in Upper(u)
  {
  }

  /** The loop that puts the line in upper case. The counter has 8 bits. */
  method PutInCapitals(s: array<char>, ghost text: string, p: nat)
    requires Holds(s, text) && p <= |text| < p + 256
    modifies s
    ensures Holds(s, text[..p] + Upper(text[p..]))
    ensures s[|text|..] == old(s[|text|..])
  {
    var i := 0;
    while s[p + i] != '\0'
      invariant p + i <= |text|
      invariant forall k | 0 <= k < p :: s[k] == text[k]
      invariant forall k | p <= k < p + i :: s[k] == UpperChar(text[k])
      invariant forall k | p + i <= k < s.Length :: s[k] == old(s[k])
      decreases |text| - i
    {
      assert s[p + i] == old(s[..|text|])[p + i];
      if 'a' <= s[p + i] <= 'z' {
        s[p + i] := UpperChar(s[p + i]);
      }
      i := i + 1;
    }
    UpperKeepsEnd(text[p..]);
    UpperFrom(s[..|text|], text, p);
  }

  lemma UpperFrom(done: string, text: string, p: nat)
    requires p <= |text| == |done| && '\0' !in text && '\0' !in Upper(text[p..])
    requires forall k | 0 <= k < p :: done[k] == text[k]
    requires forall k | p <= k < |text| :: done[k] == UpperChar(text[k])
    ensures done == text[..p] + Upper(text[p..]) && '\0' !in done
  {
  }

  method EmitOp(output: array<byte>, opcode: byte, value: word, length: nat)
    requires output.Length >= 3
    modifies output
    ensures var bytes := Emit(opcode, value, length);
            output[..] == bytes + old(output[|bytes|..])
  {
    output[0] := opcode;
    if length > 1 {
      output[1] := Low(value);
    }
    if length > 2 {
      output[2] := High(value);
    }
  }

  /** `dasm_as`, for a line that is not a data line. */
  method DasmAs(addr: word, input: array<char>, ghost text: string, output: array<byte>) returns (res: int)
    requires Holds(input, text) && |text| < 256 && output.Length >= 3
    requires As(addr, text) != Directive
    modifies input, output
    ensures Holds(input, Uppercased(text)) && input[|text|..] == old(input[|text|..])
    ensures match As(addr, text)
            case Assembled(n, bytes) => res == n && output[..] == bytes + old(output[|bytes|..])
            case _ => res == -1 && output[..] == old(output[..])
  {
    hide Holds, Skip, FindMnemonic, Parse, Emit;
    assert text[0..] == text;
    var p := SkipWhitespace(input, text, 0);
    if input[p] == '\0' {
      return -1;
    }
    var n := Strlen(input, text, p);
    if n < 3 {
      return -1;
    }
    ghost var line := Upper(text[p..]);
    ghost var upper := Uppercased(text);
    PutInCapitals(input, text, p);
    assert upper == text[..p] + line && upper[p..] == line;
    var mne := Mnemonic3(input, upper, p);
    var any := FindMne(mne, AnyMode);
    if any == ROWS {
      return -1;
    }
    assert upper[p + 3..] == line[3..];
    p := SkipWhitespace(input, upper, p + 3);
    var ok, mode, length, value := ParseOperand(input, upper, p, mne, addr);
    if !ok {
      return -1;
    }
    var index := FindMne(mne, Only(mode));
    if index == ROWS {
      return -1;
    }
    EmitOp(output, RowAt(index).opcode, value, length);
    return length;
  }

  /** The three letters that are compared with the table. */
  method Mnemonic3(s: array<char>, ghost text: string, p: nat) returns (mne: string)
    requires Holds(s, text) && p + 3 <= |text|
    ensures mne == text[p..][..3]
  {
    mne := s[p..p + 3];
    assert s[..|text|][p..p + 3] == mne;
  }

  /** `dasm_das` */
  method DasmDas(addr: word, op: array<byte>) returns (text: string, length: nat)
    requires op.Length == 3
    ensures Disassembled(text, length) == Das(addr, op[..])
  {
    hide RowAt, Spell, OperandText;
    var i := 0;
    while i < ROWS && RowAt(i).opcode != op[0]
      invariant i <= ROWS && RowOfOpcode(op[0], i) == RowOfOpcode(op[0], 0)
    {
      i := i + 1;
    }
    if i == ROWS {
      return "???", 1;
    }
    var r := RowAt(i);
    text := Spell(r.mnemonic);
    if r.mode == Implied {
      return text, 1;
    }
    text := text + " ";
    text := text + OperandText(addr, r.mode, op[1], op[2]);
    length := Length(r.mode);
  }
}
