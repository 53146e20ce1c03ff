/** The one-line assembler and the disassembler. */
module Assembler {
  import opened Bits
  import opened DasmText
  import opened OpcodeTable
  import opened OpcodeLookup

  // --- One line ---------------------------------------------------------------------

  datatype Operand = BadOperand | Operand(mode: Mode, length: nat, value: word)

  /** What follows `(n)`. */
  function ClosedBracket(v: word, u: string): Operand {
    if u == "" then Operand(IndirectAbsolute, 3, v)
    else if |u| >= 2 && u[0] == ',' && u[1] == 'Y' && Skip(u[2..]) == "" && v <= 0xff then
      Operand(IndirectIndexed, 2, v)
    else BadOperand
  }

  /** What follows `(n,`. */
  function IndexInBracket(v: word, u: string): Operand {
    if u == "" || u[0] != 'X' then BadOperand
    else
      var w := Skip(u[1..]);
      if w != "" && w[0] == ')' && Skip(w[1..]) == "" && v <= 0xff then Operand(IndexedIndirect, 2, v)
      else BadOperand
  }

  /** What follows an opening bracket. Anything but a bracket or a comma after the number leaves the mode
      and the length at their initial values. */
  function ParseIndirect(s: string): Operand {
    match GetValue(s)
    case NoValue => BadOperand
    case Value(n, v) =>
      var t := Skip(s[n..]);
      if t != "" && t[0] == ')' then ClosedBracket(v, Skip(t[1..]))
      else if t != "" && t[0] == ',' then IndexInBracket(v, Skip(t[1..]))
      else Operand(Implied, 0, v)
  }

  /** The short form is taken when the value fits and the mnemonic has it. */
  function Unindexed(mne: string, addr: word, v: word): Operand {
    if v <= 0xff && Has(mne, ZeroPage) then Operand(ZeroPage, 2, v)
    else if Has(mne, Relative) then Operand(Relative, 2, Wrap8(v - addr - 1))
    else Operand(Absolute, 3, v)
  }

  function Indexed(mne: string, v: word, short: Mode, long: Mode): Operand {
    if v <= 0xff && Has(mne, short) then Operand(short, 2, v) else Operand(long, 3, v)
  }

  /** What follows `n,`. */
  function ParseIndex(mne: string, v: word, u: string): Operand {
    if u == "" || Skip(u[1..]) != "" then BadOperand
    else if u[0] == 'X' then Indexed(mne, v, ZeroPageX, AbsoluteX)
    else if u[0] == 'Y' then Indexed(mne, v, ZeroPageY, AbsoluteY)
    else BadOperand
  }

  /** A number, possibly indexed. */
  function ParseDirect(mne: string, addr: word, s: string): Operand {
    match GetValue(s)
    case NoValue => BadOperand
    case Value(n, v) =>
      var t := Skip(s[n..]);
      if t == "" then Unindexed(mne, addr, v)
      else if t[0] == ',' then ParseIndex(mne, v, Skip(t[1..]))
      else BadOperand
  }

  function Parse(mne: string, addr: word, s: string): Operand {
    if s == "" then Operand(Implied, 1, 0)
    else if s[0] == 'A' then
      if Skip(s[1..]) == "" then Operand(Accumulator, 1, 0) else BadOperand
    else if s[0] == '#' then
      match GetValue(s[1..])
      case NoValue => BadOperand
      case Value(n, v) =>
        if v <= 0xff && Skip(s[1..][n..]) == "" then Operand(Immediate, 2, v) else BadOperand
    else if s[0] == '(' then ParseIndirect(s[1..])
    else if IsDigit(s[0], 10) || s[0] == '$' then ParseDirect(mne, addr, s)
    else BadOperand
  }

  /** `emit_op`: the opcode is written whatever the length. */
  function Emit(opcode: byte, value: word, length: nat): (bytes: seq<byte>)
    ensures |bytes| >= 1
  {
    [opcode] + (if length > 1 then [Low(value)] else []) + (if length > 2 then [High(value)] else [])
  }

  /** `Directive` is a data line, which starts with a full stop. */
  datatype Assembled = Rejected | Directive | Assembled(length: nat, bytes: seq<byte>)

  /** The part of `dasm_as` after the line is in upper case. */
  function AsUpper(addr: word, line: string): Assembled
    requires |line| >= 3
  {
    if FindMnemonic(line[..3], AnyMode) == ROWS then Rejected
    else
      match Parse(line[..3], addr, Skip(line[3..]))
      case BadOperand => Rejected
      case Operand(mode, length, value) =>
        var i := FindMnemonic(line[..3], Only(mode));
        if i == ROWS then Rejected else Assembled(length, Emit(RowAt(i).opcode, value, length))
  }

  /** `dasm_as` */
  function As(addr: word, line: string): Assembled {
    var p := Skip(line);
    if p == "" then Rejected
    else if p[0] == '.' then Directive
    else if |p| < 3 then Rejected
    else AsUpper(addr, Upper(p))
  }

  /** What `dasm_as` leaves in its input. */
  function Uppercased(line: string): (u: string)
    ensures |u| == |line|
  {
    var p := Skip(line);
    if |p| < 3 || p[0] == '.' then line else line[..|line| - |p|] + Upper(p)
  }

  // --- One instruction --------------------------------------------------------------

  /** The branch target as the disassembler prints it and the assembler reads it. */
  function Target(addr: word, offset: byte): word {
    Wrap16(addr + 1 + Signed(offset))
  }

  function OperandText(addr: word, mode: Mode, lo: byte, hi: byte): string {
    match mode
    case Implied => ""
    case Accumulator => "A"
    case Immediate => "#$" + Hex2(lo)
    case ZeroPage => "$" + Hex2(lo)
    case ZeroPageX => "$" + Hex2(lo) + ",X"
    case ZeroPageY => "$" + Hex2(lo) + ",Y"
    case Absolute => "$" + Hex4(Word(lo, hi))
    case AbsoluteX => "$" + Hex4(Word(lo, hi)) + ",X"
    case AbsoluteY => "$" + Hex4(Word(lo, hi)) + ",Y"
    case IndirectAbsolute => "($" + Hex4(Word(lo, hi)) + ")"
    case IndexedIndirect => "($" + Hex2(lo) + ",X)"
    case IndirectIndexed => "($" + Hex2(lo) + "),Y"
    case Relative => "$" + Hex4(Target(addr, lo))
  }

  /** What follows the mnemonic in the text of an instruction. */
  function AfterMnemonic(addr: word, mode: Mode, lo: byte, hi: byte): string {
    if mode == Implied then "" else " " + OperandText(addr, mode, lo, hi)
  }

  /** `dasm_das`: the text of an instruction and its length. */
  datatype Disassembled = Disassembled(text: string, length: nat)

  function Das(addr: word, op: seq<byte>): Disassembled
    requires |op| == 3
  {
    var i := RowOfOpcode(op[0], 0);
    if i == ROWS then Disassembled("???", 1)
    else
      var r := RowAt(i);
      Disassembled(Spell(r.mnemonic) + AfterMnemonic(addr, r.mode, op[1], op[2]), Length(r.mode))
  }
}

/** Disassembling an instruction and assembling the text gives the instruction back. */
module AssemblerRoundTrip {
  import opened Bits
  import opened DasmText
  import opened OpcodeTable
  import opened OpcodeLookup
  import opened Assembler

  // --- Operands ---------------------------------------------------------------------

  lemma UpperConcat(a: string, b: string)
    ensures Upper(a + b) == Upper(a) + Upper(b)
  {
    hide UpperChar;
    assert forall i | 0 <= i < |a + b| :: Upper(a + b)[i] == (Upper(a) + Upper(b))[i];
  }

  lemma ReadByte(b: byte, tail: string)
    requires tail == "" || !IsDigit(tail[0], 16)
    ensures GetValue("$" + Upper(Hex2(b)) + tail) == Value(3, b)
    ensures ("$" + Upper(Hex2(b)) + tail)[3..] == tail
  {
    hide GetValue, Digit, Number, Hex2, Upper;
    var s := "$" + Upper(Hex2(b)) + tail;
    NumberOfHex2(Upper(Hex2(b)), b);
    assert s[1..3] == Upper(Hex2(b));
    HexValue(s, 2);
  }

  lemma ReadWord(w: word, tail: string)
    requires tail == "" || !IsDigit(tail[0], 16)
    ensures GetValue("$" + Upper(Hex4(w)) + tail) == Value(5, w)
    ensures ("$" + Upper(Hex4(w)) + tail)[5..] == tail
  {
    hide GetValue, Digit, Number, Hex4, Upper;
    var s := "$" + Upper(Hex4(w)) + tail;
    NumberOfHex4(Upper(Hex4(w)), w);
    assert s[1..5] == Upper(Hex4(w));
    HexValue(s, 4);
  }

  /** An operand whose high byte is 0 loses it when the mnemonic has the matching zero page form. */
  predicate Shortens(mne: string, mode: Mode, hi: byte) {
    && hi == 0
    && match mode
       case Absolute => Has(mne, ZeroPage)
       case AbsoluteX => Has(mne, ZeroPageX)
       case AbsoluteY => Has(mne, ZeroPageY)
       case _ => false
  }

  function ShortForm(mode: Mode): Mode {
    match mode
    case Absolute => ZeroPage
    case AbsoluteX => ZeroPageX
    case AbsoluteY => ZeroPageY
    case _ => mode
  }

  /** What the assembler makes of a printed operand. */
  function ReadBack(mne: string, mode: Mode, lo: byte, hi: byte): Operand {
    if Shortens(mne, mode, hi) then Operand(ShortForm(mode), 2, lo)
    else if Length(mode) == 1 then Operand(mode, 1, 0)
    else if Length(mode) == 2 then Operand(mode, 2, lo)
    else Operand(mode, 3, Word(lo, hi))
  }

  /** What a mnemonic of the table has: its own mode, and no other if that is relative. */
  predicate Consistent(mne: string, mode: Mode) {
    && Has(mne, mode)
    && (Has(mne, Relative) <==> mode == Relative)
    && (mode == Relative ==> !Has(mne, ZeroPage))
  }

  lemma TargetReadsBack(addr: word, offset: byte)
    ensures Wrap8(Target(addr, offset) - addr - 1) == offset
  {
  }

  predicate IsIndex(index: string) {
    index == "" || index == ",X" || index == ",Y"
  }

  /** The ends of direct operands, as the parser steps over them. */
  lemma Tail(index: string, blank: string)
    requires Blank(blank) && IsIndex(index)
    ensures index == "" ==> Skip(index + blank) == ""
    ensures index != "" ==>
              var t := Skip(index + blank);
              t != "" && t[0] == ',' && Skip(t[1..]) != "" && Skip(t[1..])[0] == index[1]
              && Skip(Skip(t[1..])[1..]) == ""
    ensures index + blank == "" || !IsDigit((index + blank)[0], 16)
  {
    SkipBlank(blank);
    var t := index + blank;
    if index == "" {
      assert t == blank;
    } else {
      assert t[1..] == [index[1]] + blank;
      assert t[1..][1..] == blank;
    }
  }

  function Direct(mne: string, addr: word, v: word, index: string): Operand {
    if index == "" then Unindexed(mne, addr, v)
    else if index == ",X" then Indexed(mne, v, ZeroPageX, AbsoluteX)
    else Indexed(mne, v, ZeroPageY, AbsoluteY)
  }

  lemma StartsDirect(mne: string, addr: word, s: string)
    requires s != "" && s[0] == '$'
    ensures Parse(mne, addr, s) == ParseDirect(mne, addr, s)
  {
    hide ParseDirect;
  }

  lemma ParsesDirect(mne: string, addr: word, s: string, n: nat, v: word, index: string, blank: string)
    requires s != "" && s[0] == '$' && n <= |s| && GetValue(s) == Value(n, v) && s[n..] == index + blank
    requires Blank(blank) && IsIndex(index)
    ensures ParseDirect(mne, addr, s) == Direct(mne, addr, v, index)
  {
    hide GetValue, Unindexed, Indexed, Blank, Skip;
    Tail(index, blank);
  }

  /** What an operand has after its number. */
  function SuffixOf(mode: Mode): string {
    match mode
    case ZeroPageX => ",X"
    case AbsoluteX => ",X"
    case ZeroPageY => ",Y"
    case AbsoluteY => ",Y"
    case IndirectAbsolute => ")"
    case IndexedIndirect => ",X)"
    case IndirectIndexed => "),Y"
    case _ => ""
  }

  /** The number a direct operand is printed as. */
  function Printed(addr: word, mode: Mode, lo: byte, hi: byte): word {
    match mode
    case ZeroPage => lo
    case ZeroPageX => lo
    case ZeroPageY => lo
    case Relative => Target(addr, lo)
    case _ => Word(lo, hi)
  }

  predicate IsDirect(mode: Mode) {
    match mode
    case ZeroPage => true
    case ZeroPageX => true
    case ZeroPageY => true
    case Absolute => true
    case AbsoluteX => true
    case AbsoluteY => true
    case Relative => true
    case _ => false
  }

  lemma DirectReadsBack(mne: string, addr: word, mode: Mode, lo: byte, hi: byte)
    requires Consistent(mne, mode) && IsDirect(mode)
    ensures Direct(mne, addr, Printed(addr, mode, lo, hi), SuffixOf(mode)) == ReadBack(mne, mode, lo, hi)
  {
    TargetReadsBack(addr, lo);
    hide Has, Target;
  }

  lemma DirectByte(mne: string, addr: word, b: byte, index: string, blank: string)
    requires IsIndex(index) && Blank(blank)
    ensures Parse(mne, addr, "$" + Upper(Hex2(b)) + (index + blank)) == Direct(mne, addr, b, index)
  {
    hide *;
    var s := "$" + Upper(Hex2(b)) + (index + blank);
    Tail(index, blank);
    ReadByte(b, index + blank);
    StartsDirect(mne, addr, s);
    ParsesDirect(mne, addr, s, 3, b, index, blank);
  }

  lemma DirectWord(mne: string, addr: word, w: word, index: string, blank: string)
    requires IsIndex(index) && Blank(blank)
    ensures Parse(mne, addr, "$" + Upper(Hex4(w)) + (index + blank)) == Direct(mne, addr, w, index)
  {
    hide *;
    var s := "$" + Upper(Hex4(w)) + (index + blank);
    Tail(index, blank);
    ReadWord(w, index + blank);
    StartsDirect(mne, addr, s);
    ParsesDirect(mne, addr, s, 5, w, index, blank);
  }

  lemma Immediates(mne: string, addr: word, b: byte, blank: string)
    requires Blank(blank)
    ensures Parse(mne, addr, "#" + ("$" + Upper(Hex2(b)) + blank)) == Operand(Immediate, 2, b)
  {
    hide GetValue, Upper, Hex2, Skip, IsDigit, ParseIndirect, ParseDirect;
    var s := "$" + Upper(Hex2(b)) + blank;
    Tail("", blank);
    assert "" + blank == blank;
    ReadByte(b, blank);
    assert ("#" + s)[1..] == s;
  }

  lemma StartsIndirect(mne: string, addr: word, s: string)
    ensures Parse(mne, addr, "(" + s) == ParseIndirect(s)
  {
    hide ParseIndirect;
    assert ("(" + s)[1..] == s;
  }

  /** Skipping stops at once before anything but white space. */
  lemma NoSkip(s: string)
    requires s != "" && !IsSpace(s[0])
    ensures Skip(s) == s
  {
  }

  lemma JumpIndirect(mne: string, addr: word, w: word, blank: string)
    requires Blank(blank)
    ensures ParseIndirect("$" + Upper(Hex4(w)) + (")" + blank)) == Operand(IndirectAbsolute, 3, w)
  {
    hide GetValue, Upper, Hex4, Skip;
    var t := ")" + blank;
    SkipBlank(blank);
    NoSkip(t);
    assert t[1..] == blank;
    ReadWord(w, t);
  }

  lemma PreIndexed(mne: string, addr: word, b: byte, blank: string)
    requires Blank(blank)
    ensures ParseIndirect("$" + Upper(Hex2(b)) + (",X)" + blank)) == Operand(IndexedIndirect, 2, b)
  {
    hide GetValue, Upper, Hex2, Skip;
    var t := ",X)" + blank;
    SkipBlank(blank);
    NoSkip(t);
    NoSkip(t[1..]);
    NoSkip(t[1..][1..]);
    assert t[1..][1..][1..] == blank;
    ReadByte(b, t);
  }

  lemma PostIndexed(mne: string, addr: word, b: byte, blank: string)
    requires Blank(blank)
    ensures ParseIndirect("$" + Upper(Hex2(b)) + ("),Y" + blank)) == Operand(IndirectIndexed, 2, b)
  {
    hide GetValue, Upper, Hex2, Skip;
    var t := "),Y" + blank;
    SkipBlank(blank);
    NoSkip(t);
    NoSkip(t[1..]);
    assert t[1..][2..] == blank;
    ReadByte(b, t);
  }

  lemma UpperLiterals()
    ensures Upper("$") == "$" && Upper("#$") == "#$" && Upper("($") == "($" && Upper(")") == ")"
    ensures Upper(",X") == ",X" && Upper(",Y") == ",Y" && Upper(",X)") == ",X)" && Upper("),Y") == "),Y"
    ensures Upper("A") == "A" && Upper(" ") == " " && Upper("") == ""
  {
  }

  lemma UpperAround(a: string, h: string, b: string)
    requires Upper(a) == a && Upper(b) == b
    ensures Upper(a + h + b) == a + Upper(h) + b
  {
    hide Upper;
    UpperConcat(a + h, b);
    UpperConcat(a, h);
  }

  /** The digits of an operand. */
  function HexOf(addr: word, mode: Mode, lo: byte, hi: byte): string {
    if Length(mode) == 2 && mode != Relative then Hex2(lo) else Hex4(Printed(addr, mode, lo, hi))
  }

  function HeadOf(mode: Mode): string {
    match mode
    case Immediate => "#$"
    case IndirectAbsolute => "($"
    case IndexedIndirect => "($"
    case IndirectIndexed => "($"
    case _ => "$"
  }

  lemma UpperOperand(addr: word, mode: Mode, lo: byte, hi: byte)
    requires Length(mode) > 1
    ensures Upper(OperandText(addr, mode, lo, hi))
         == HeadOf(mode) + Upper(HexOf(addr, mode, lo, hi)) + SuffixOf(mode)
  {
    hide Upper, Hex2, Hex4, Target;
    UpperLiterals();
    var a, h, b := HeadOf(mode), HexOf(addr, mode, lo, hi), SuffixOf(mode);
    assert OperandText(addr, mode, lo, hi) == a + h + b;
    UpperAround(a, h, b);
  }

  lemma DirectOperand(mne: string, addr: word, mode: Mode, lo: byte, hi: byte, blank: string)
    requires Consistent(mne, mode) && Blank(blank) && IsDirect(mode)
    ensures Parse(mne, addr, "$" + Upper(HexOf(addr, mode, lo, hi)) + (SuffixOf(mode) + blank))
         == ReadBack(mne, mode, lo, hi)
  {
    var v, suffix := Printed(addr, mode, lo, hi), SuffixOf(mode);
    var short := Length(mode) == 2 && mode != Relative;
    assert IsIndex(suffix) && (short ==> v == lo);
    assert HexOf(addr, mode, lo, hi) == if short then Hex2(lo) else Hex4(v);
    DirectReadsBack(mne, addr, mode, lo, hi);
    hide *;
    if short {
      DirectByte(mne, addr, lo, suffix, blank);
    } else {
      DirectWord(mne, addr, v, suffix, blank);
    }
  }

  lemma IndirectOperand(mne: string, addr: word, mode: Mode, lo: byte, hi: byte, blank: string)
    requires Blank(blank) && !IsDirect(mode) && Length(mode) > 1 && mode != Immediate
    ensures Parse(mne, addr, "(" + ("$" + Upper(HexOf(addr, mode, lo, hi)) + (SuffixOf(mode) + blank)))
         == ReadBack(mne, mode, lo, hi)
  {
    hide Parse, ParseIndirect, Upper, Blank, Has, Hex2, Hex4;
    StartsIndirect(mne, addr, "$" + Upper(HexOf(addr, mode, lo, hi)) + (SuffixOf(mode) + blank));
    match mode {
      case IndirectAbsolute => JumpIndirect(mne, addr, Word(lo, hi), blank);
      case IndexedIndirect => PreIndexed(mne, addr, lo, blank);
      case IndirectIndexed => PostIndexed(mne, addr, lo, blank);
    }
  }

  lemma Regroup(a: string, h: string, s: string, blank: string)
    ensures "$" + h + s + blank == "$" + h + (s + blank)
    ensures "($" + h + s + blank == "(" + ("$" + h + (s + blank))
    ensures "#$" + h + "" + blank == "#" + ("$" + h + blank)
  {
  }

  /** The assembler's parser undoes the disassembler's printer, except for the short forms. */
  lemma OperandReadsBack(mne: string, addr: word, mode: Mode, lo: byte, hi: byte, blank: string)
    requires Consistent(mne, mode) && Blank(blank) && Length(mode) > 1
    ensures Parse(mne, addr, Upper(OperandText(addr, mode, lo, hi)) + blank) == ReadBack(mne, mode, lo, hi)
  {
    assert mode == Immediate ==> HexOf(addr, mode, lo, hi) == Hex2(lo) && !Shortens(mne, mode, hi);
    hide Upper, Hex2, Hex4, HexOf, Target, Parse, Has, Blank, OperandText, Shortens;
    UpperOperand(addr, mode, lo, hi);
    Regroup(HeadOf(mode), Upper(HexOf(addr, mode, lo, hi)), SuffixOf(mode), blank);
    if IsDirect(mode) {
      DirectOperand(mne, addr, mode, lo, hi, blank);
    } else if mode == Immediate {
      Immediates(mne, addr, lo, blank);
    } else {
      IndirectOperand(mne, addr, mode, lo, hi, blank);
    }
  }

  // --- Lines ------------------------------------------------------------------------

  lemma AccumulatorReadsBack(mne: string, addr: word, blank: string)
    requires Blank(blank)
    ensures Parse(mne, addr, "A" + blank) == Operand(Accumulator, 1, 0)
  {
    hide ParseDirect, ParseIndirect;
    SkipBlank(blank);
    assert ("A" + blank)[1..] == blank;
  }

  lemma OperandStarts(addr: word, mode: Mode, lo: byte, hi: byte)
    requires mode != Implied
    ensures Upper(OperandText(addr, mode, lo, hi)) != "" && !IsSpace(Upper(OperandText(addr, mode, lo, hi))[0])
  {
    UpperLiterals();
    hide Upper, Hex2, Hex4, HexOf;
    if mode != Accumulator {
      UpperOperand(addr, mode, lo, hi);
    }
  }

  lemma AfterReadsBack(mne: string, addr: word, mode: Mode, lo: byte, hi: byte, blank: string)
    requires Consistent(mne, mode) && Blank(blank)
    ensures Parse(mne, addr, Skip(Upper(AfterMnemonic(addr, mode, lo, hi)) + blank))
         == ReadBack(mne, mode, lo, hi)
  {
    UpperLiterals();
    hide Upper, Consistent, ParseDirect, ParseIndirect, Hex2, Hex4;
    var text := Upper(AfterMnemonic(addr, mode, lo, hi)) + blank;
    if mode == Implied {
      assert text == blank;
      SkipBlank(blank);
    } else {
      hide Parse, Skip, Blank, IsSpace, Has;
      assert mode == Accumulator ==> ReadBack(mne, mode, lo, hi) == Operand(Accumulator, 1, 0);
      hide ReadBack;
      var o := Upper(OperandText(addr, mode, lo, hi));
      OperandStarts(addr, mode, lo, hi);
      UpperConcat(" ", OperandText(addr, mode, lo, hi));
      assert text == " " + (o + blank);
      assert Blank(" ") by { OneBlank(); }
      SkipOverBlank(" ", o + blank);
      if mode == Accumulator {
        AccumulatorReadsBack(mne, addr, blank);
      } else {
        OperandReadsBack(mne, addr, mode, lo, hi, blank);
      }
    }
  }

  lemma OneBlank()
    ensures Blank(" ")
  {
  }

  predicate Capitals(s: string) {
    forall i | 0 <= i < |s| :: 'A' <= s[i] <= 'Z'
  }

  lemma SpelledInCapitals(m: Mnemonic)
    ensures |Spell(m)| == 3 && Capitals(Spell(m))
  {
    hide Spell;
  }

  lemma UpperCapitals(s: string)
    requires Capitals(s)
    ensures Upper(s) == s
  {
  }

  lemma UpperBlank(b: string)
    requires Blank(b)
    ensures Upper(b) == b
  {
  }

  /** A row of the table can be found by its mnemonic, in its mode or in any. */
  lemma RowIsConsistent(i: nat)
    requires i < ROWS
    ensures Consistent(Spell(RowAt(i).mnemonic), RowAt(i).mode)
    ensures FindMnemonic(Spell(RowAt(i).mnemonic), AnyMode) != ROWS
    ensures FindMnemonic(Spell(RowAt(i).mnemonic), Only(RowAt(i).mode)) == Canonical(i) <= i
  {
    EveryRowOk(i);
    hide RowAt, Spell, Canonical, Encode, Branch, Duplicate;
    RowByMnemonic(i);
    RelativeIsBranch(i);
    assert Fits(RowAt(i), Spell(RowAt(i).mnemonic), AnyMode);
  }

  /** What the assembler writes for an operand of a mnemonic. */
  function Written(mne: string, o: Operand): Assembled
    requires o.Operand?
  {
    var i := FindMnemonic(mne, Only(o.mode));
    if i == ROWS then Rejected else Assembled(o.length, Emit(RowAt(i).opcode, o.value, o.length))
  }

  lemma LineStarts(mne: string, rest: string, before: string)
    requires Blank(before) && |mne| == 3 && Capitals(mne)
    ensures Skip(before + (mne + rest)) == mne + rest && (mne + rest)[0] != '.'
  {
    hide Skip, Blank;
    assert 'A' <= mne[0] <= 'Z';
    SkipOverBlank(before, mne + rest);
  }

  lemma LineParts(mne: string, rest: string, after: string)
    requires Blank(after) && |mne| == 3 && Capitals(mne)
    ensures Upper(mne + rest + after) == mne + (Upper(rest) + after)
  {
    UpperCapitals(mne);
    UpperBlank(after);
    hide *;
    UpperConcat(mne + rest, after);
    UpperConcat(mne, rest);
  }

  lemma LineReadsBack(addr: word, i: nat, lo: byte, hi: byte, before: string, after: string)
    requires i < ROWS && Blank(before) && Blank(after)
    ensures var r := RowAt(i); var mne := Spell(r.mnemonic);
            As(addr, before + (mne + AfterMnemonic(addr, r.mode, lo, hi)) + after)
              == Written(mne, ReadBack(mne, r.mode, lo, hi))
  {
    var r := RowAt(i);
    hide RowAt, Spell, Skip, Upper, Blank, AfterMnemonic, Parse, Has, FindMnemonic;
    var mne, rest := Spell(r.mnemonic), AfterMnemonic(addr, r.mode, lo, hi);
    RowIsConsistent(i);
    SpelledInCapitals(r.mnemonic);
    assert before + (mne + rest) + after == before + (mne + (rest + after));
    assert mne + rest + after == mne + (rest + after);
    LineStarts(mne, rest + after, before);
    LineParts(mne, rest, after);
    AfterReadsBack(mne, addr, r.mode, lo, hi, after);
  }

  // --- The round trip ---------------------------------------------------------------

  /** The instructions whose text the assembler turns back into them: the opcode is in the table and does not
      repeat an earlier row, and the operand is not one the assembler shortens. */
  predicate Faithful(op: seq<byte>)
    requires |op| == 3
  {
    var i := RowOfOpcode(op[0], 0);
    i < ROWS && !Duplicate(op[0]) && !Shortens(Spell(RowAt(i).mnemonic), RowAt(i).mode, op[2])
  }

  lemma UnknownIsRejected(addr: word, before: string, after: string)
    requires Blank(before) && Blank(after)
    ensures As(addr, before + "???" + after) == Rejected
  {
    assert before + "???" + after == before + ("???" + after);
    SkipOverBlank(before, "???" + after);
    hide Skip, Blank, RowAt, Spell;
    var u := Upper("???" + after);
    assert u[..3] == "???";
    assert FindMnemonic("???", AnyMode) == ROWS;
  }

  /** The opcode written for a row is its own exactly when the row does not repeat an earlier one. */
  lemma OwnOpcode(i: nat)
    requires i < ROWS
    ensures Canonical(i) < ROWS
    ensures RowAt(Canonical(i)).opcode == RowAt(i).opcode <==> !Duplicate(RowAt(i).opcode)
  {
    EveryRowOk(i);
    hide RowAt, Canonical, Encode, Duplicate, Branch;
    if Canonical(i) < i {
      OpcodesIncrease(Canonical(i), i);
    }
  }

  lemma EmitReadBack(mne: string, mode: Mode, opcode: byte, lo: byte, hi: byte)
    requires !Shortens(mne, mode, hi)
    ensures var o := ReadBack(mne, mode, lo, hi);
            o.mode == mode && o.length == Length(mode)
            && Emit(opcode, o.value, o.length) == [opcode] + [lo, hi][..Length(mode) - 1]
  {
    HalvesOfWord(lo, hi);
    assert Low(lo) == lo;
    assert [lo, hi][..0] == [] && [lo, hi][..1] == [lo] && [lo, hi][..2] == [lo, hi];
    hide Shortens, ShortForm, Low, High, Word;
    assert ReadBack(mne, mode, lo, hi).length == Length(mode);
  }

  lemma WrittenBack(i: nat, op: seq<byte>)
    requires |op| == 3 && i < ROWS && RowAt(i).opcode == op[0]
    ensures var r := RowAt(i);
            Written(Spell(r.mnemonic), ReadBack(Spell(r.mnemonic), r.mode, op[1], op[2]))
              == Assembled(Length(r.mode), op[..Length(r.mode)])
            <==> !Duplicate(op[0]) && !Shortens(Spell(r.mnemonic), r.mode, op[2])
  {
    hide RowAt, Spell, Canonical, Duplicate, Has, Emit;
    var r := RowAt(i);
    RowIsConsistent(i);
    OwnOpcode(i);
    if !Shortens(Spell(r.mnemonic), r.mode, op[2]) {
      hide Shortens;
      EmitReadBack(Spell(r.mnemonic), r.mode, RowAt(Canonical(i)).opcode, op[1], op[2]);
      assert op[..Length(r.mode)] == [op[0]] + [op[1], op[2]][..Length(r.mode) - 1];
    }
  }

  /** Text printed for an instruction, with any white space around it, assembles at the same address to the same
      bytes if and only if the instruction is faithful. */
  lemma InstructionRoundTrip(addr: word, op: seq<byte>, before: string, after: string)
    requires |op| == 3 && Blank(before) && Blank(after)
    ensures var d := Das(addr, op);
            1 <= d.length <= 3 &&
            (As(addr, before + d.text + after) == Assembled(d.length, op[..d.length]) <==> Faithful(op))
  {
    hide As, RowAt, Spell, Blank, Canonical, Duplicate, AfterMnemonic, Written, ReadBack;
    var i := RowOfOpcode(op[0], 0);
    if i == ROWS {
      UnknownIsRejected(addr, before, after);
    } else {
      LineReadsBack(addr, i, op[1], op[2], before, after);
      WrittenBack(i, op);
    }
  }

  /** The row that a lookup finds is its own first row. */
  lemma FoundRow(mne: string, mode: Mode)
    requires Has(mne, mode)
    ensures var i := FindMnemonic(mne, Only(mode));
            && i < ROWS && Spell(RowAt(i).mnemonic) == mne && RowAt(i).mode == mode
            && RowOfOpcode(RowAt(i).opcode, 0) == i
  {
    hide RowAt, Spell;
    RowByOpcode(FindMnemonic(mne, Only(mode)));
  }

  lemma ExampleRows()
    ensures RowAt(12) == Row(0x15, ORA, ZeroPageX) && Canonical(12) == 1 && RowAt(1).opcode == 0x01
    ensures RowAt(101) == Row(0xad, LDA, Absolute) && RowAt(95) == Row(0xa5, LDA, ZeroPage) && Canonical(95) == 95
  {
    hide Spell, Named;
  }

  lemma ComesBackAs(addr: word, i: nat, lo: byte, hi: byte)
    requires i < ROWS
    ensures var r := RowAt(i); var mne := Spell(r.mnemonic);
            As(addr, Das(addr, [r.opcode, lo, hi]).text) == Written(mne, ReadBack(mne, r.mode, lo, hi))
  {
    hide As, RowAt, Spell, AfterMnemonic, Written, ReadBack;
    RowByOpcode(i);
    LineReadsBack(addr, i, lo, hi, "", "");
    var text := Das(addr, [RowAt(i).opcode, lo, hi]).text;
    assert "" + text + "" == text;
  }

  lemma LowOfByte(w: word)
    requires w <= 0xff
    ensures Low(w) == w
  {
  }

  lemma TwoBytes(mne: string, mode: Mode, i: nat, lo: byte)
    requires FindMnemonic(mne, Only(mode)) == i < ROWS
    ensures Written(mne, Operand(mode, 2, lo)) == Assembled(2, [RowAt(i).opcode, lo])
  {
    hide RowAt, FindMnemonic, Low;
    LowOfByte(lo);
  }

  /** Whatever its operand, 0x15 comes back as 0x01, and an absolute LDA of an operand below 256 in its zero page
      form 0xa5. */
  lemma UnfaithfulExamples(addr: word, lo: byte, hi: byte)
    ensures As(addr, Das(addr, [0x15, lo, hi]).text) == Assembled(2, [0x01, lo])
    ensures As(addr, Das(addr, [0xad, lo, 0]).text) == Assembled(2, [0xa5, lo])
  {
    hide As, Das, RowAt, Canonical, Spell, FindMnemonic, Written;
    ExampleRows();
    ComesBackAs(addr, 12, lo, hi);
    ComesBackAs(addr, 101, lo, 0);
    RowIsConsistent(12);
    RowIsConsistent(95);
    TwoBytes(Spell(ORA), ZeroPageX, 1, lo);
    TwoBytes(Spell(LDA), ZeroPage, 95, lo);
  }

  /** When the text of an instruction does not come back, either it is a syntax error or the very first byte is
      different. */
  lemma UnfaithfulDiffers(addr: word, op: seq<byte>, before: string, after: string)
    requires |op| == 3 && Blank(before) && Blank(after) && !Faithful(op)
    ensures match As(addr, before + Das(addr, op).text + after)
            case Assembled(n, bytes) => n >= 1 && |bytes| >= 1 && bytes[0] != op[0]
            case Directive => false
            case Rejected => true
  {
    hide As, RowAt, Spell, Blank, Canonical, Duplicate, AfterMnemonic, Has, FindMnemonic;
    var i := RowOfOpcode(op[0], 0);
    if i == ROWS {
      UnknownIsRejected(addr, before, after);
    } else {
      var r := RowAt(i);
      var mne := Spell(r.mnemonic);
      LineReadsBack(addr, i, op[1], op[2], before, after);
      RowIsConsistent(i);
      OwnOpcode(i);
      if Shortens(mne, r.mode, op[2]) && FindMnemonic(mne, Only(ShortForm(r.mode))) != ROWS {
        FoundRow(mne, ShortForm(r.mode));
      }
    }
  }

  // --- Whatever is accepted is a fixed point ----------------------------------------

  /** An operand after its `#` or bracket. */
  function NumberPart(s: string): string
    requires s != ""
  {
    if s[0] == '#' || s[0] == '(' then s[1..] else s
  }

  /** Every operand the assembler accepts is a plain run of digits: what `sscanf` would also take, such as a
      sign or a second prefix, is never in an accepted line. */
  lemma OperandsArePlain(mne: string, addr: word, s: string)
    requires Parse(mne, addr, s).Operand? && Parse(mne, addr, s).length >= 2
    ensures s != "" && Plain(NumberPart(s), GetValue(NumberPart(s)))
  {
    hide GetValue, Skip, Plain, Unindexed, Indexed, IsDigit;
    var p := NumberPart(s);
    if !Plain(p, GetValue(p)) {
      OddRest(p);
    }
  }

  /** The mode, length and value of an operand agree, and it is not one to shorten. */
  predicate Settled(mne: string, o: Operand) {
    && o.Operand?
    && o.length == Length(o.mode)
    && (o.length == 2 ==> o.value <= 0xff)
    && (o.length == 1 ==> o.value == 0)
    && !Shortens(mne, o.mode, High(o.value))
  }

  lemma ChosenSettled(mne: string, addr: word, v: word)
    ensures Settled(mne, Unindexed(mne, addr, v))
    ensures Settled(mne, Indexed(mne, v, ZeroPageX, AbsoluteX))
    ensures Settled(mne, Indexed(mne, v, ZeroPageY, AbsoluteY))
  {
    hide Has;
  }

  lemma DirectSettled(mne: string, addr: word, s: string)
    requires ParseDirect(mne, addr, s).Operand?
    ensures Settled(mne, ParseDirect(mne, addr, s))
  {
    hide GetValue, Skip, Settled, Unindexed, Indexed;
    ChosenSettled(mne, addr, GetValue(s).value);
  }

  lemma IndirectSettled(mne: string, s: string)
    requires ParseIndirect(s).Operand? && ParseIndirect(s).length > 0
    ensures Settled(mne, ParseIndirect(s))
  {
    hide GetValue, Skip, Has;
  }

  lemma AcceptedSettled(mne: string, addr: word, s: string)
    requires Parse(mne, addr, s).Operand? && Parse(mne, addr, s).length > 0
    ensures Settled(mne, Parse(mne, addr, s))
  {
    hide GetValue, Skip, Has, ParseDirect, ParseIndirect;
    if s != "" {
      if ParseDirect(mne, addr, s).Operand? {
        DirectSettled(mne, addr, s);
      }
      if ParseIndirect(s[1..]).Operand? && ParseIndirect(s[1..]).length > 0 {
        IndirectSettled(mne, s[1..]);
      }
    }
  }

  lemma SettledReadsBack(mne: string, o: Operand, hi: byte)
    requires Settled(mne, o) && (o.length == 3 ==> hi == High(o.value))
    ensures ReadBack(mne, o.mode, Low(o.value), hi) == o
  {
    WordOfHalves(o.value);
    if o.value <= 0xff {
      LowOfByte(o.value);
    }
    hide Has, High, Low, Word;
    assert !Shortens(mne, o.mode, hi);
    hide Shortens;
  }

  /** Every line the assembler takes for an instruction, at any address: disassembling the bytes and
      assembling that text at the same address gives the same bytes. The bytes may be followed by any others. */
  lemma AcceptedIsFixed(addr: word, line: string, pad: seq<byte>, before: string, after: string)
    requires As(addr, line).Assembled? && As(addr, line).length > 0
    requires |As(addr, line).bytes + pad| >= 3 && Blank(before) && Blank(after)
    ensures var a := As(addr, line);
            var d := Das(addr, (a.bytes + pad)[..3]);
            d.length == a.length == |a.bytes| && As(addr, before + d.text + after) == a
  {
    hide Skip, Upper, Blank, RowAt, Spell, Parse, FindMnemonic, Canonical;
    var u := Upper(Skip(line));
    var mne, s := u[..3], Skip(u[3..]);
    var o := Parse(mne, addr, s);
    var i := FindMnemonic(mne, Only(o.mode));
    var a := As(addr, line);
    assert a == AsUpper(addr, u);
    FoundRow(mne, o.mode);
    AcceptedSettled(mne, addr, s);
    var op := (a.bytes + pad)[..3];
    assert op[0] == RowAt(i).opcode && (o.length > 1 ==> op[1] == Low(o.value));
    assert o.length > 2 ==> op[2] == High(o.value);
    hide As, AsUpper, AfterMnemonic, ReadBack, Settled;
    SettledReadsBack(mne, o, op[2]);
    LineReadsBack(addr, i, op[1], op[2], before, after);
  }
}
