/** Which operands the assembler takes, written as a grammar, apart from how it reads them. */
module AssemblerGrammar {
  import opened Bits
  import opened DasmText
  import opened OpcodeTable
  import opened OpcodeLookup
  import opened Assembler
  import opened AssemblerRoundTrip

  // --- Numbers ----------------------------------------------------------------------

  /** Decimal digits, or hexadecimal digits after a dollar sign. */
  datatype Numeral = Decimal(digits: string) | Hexadecimal(digits: string)

  predicate Proper(n: Numeral) {
    n.digits != "" && AllDigits(n.digits, Base(n))
  }

  function Base(n: Numeral): nat {
    if n.Decimal? then 10 else 16
  }

  function Written(n: Numeral): (s: string)
    ensures n.digits != "" ==> s != ""
  {
    if n.Decimal? then n.digits else "$" + n.digits
  }

  /** Its value, of which 16 bits are kept. */
  function ValueOf(n: Numeral): word {
    Number(n.digits, Base(n)) % 0x1_0000
  }

  /** What may follow a number: the end, white space, a comma or a closing bracket. */
  predicate Ends(rest: string) {
    rest == "" || IsSpace(rest[0]) || rest[0] == ',' || rest[0] == ')'
  }

  lemma DecimalIsRead(digits: string, rest: string)
    requires digits != "" && AllDigits(digits, 10) && Ends(rest)
    ensures GetValue(digits + rest) == Value(|digits|, Wrap16(Number(digits, 10)))
  {
    DigitsAreRead(digits, rest, 10);
    assert IsDigit(digits[0], 10) && (digits + rest)[0] == digits[0];
    assert (digits + rest)[0] != '$' && digits + rest != "";
    hide Run, Scan, Number, AllDigits, Ends, Wrap16, IsDigit, Digit;
  }

  lemma HexadecimalIsRead(digits: string, rest: string)
    requires digits != "" && AllDigits(digits, 16) && Ends(rest)
    ensures GetValue("$" + (digits + rest)) == Value(1 + |digits|, Wrap16(Number(digits, 16)))
  {
    DigitsAreRead(digits, rest, 16);
    Behind('$', digits + rest);
    hide Run, Scan, Number, AllDigits, Ends, Wrap16;
  }

  lemma DigitsAreRead(digits: string, rest: string, base: nat)
    requires digits != "" && (base == 10 || base == 16) && AllDigits(digits, base) && Ends(rest)
    ensures Run(digits + rest, base) == |digits|
    ensures Scan(digits + rest, base) == Scanned(Wrap16(Number(digits, base)))
  {
    var d, k := digits + rest, |digits|;
    assert d[..k] == digits && d[k..] == rest;
    assert IsDigit(d[..k][0], base);
    assert k < |d| ==> d[k] == rest[0];
    RunIs(d, k, base);
    DigitsAreScanned(d, k, base);
    hide Run, Scan, Number, AllDigits;
  }

  lemma NumeralIsRead(n: Numeral, rest: string)
    requires Proper(n) && Ends(rest)
    ensures GetValue(Written(n) + rest) == Value(|Written(n)|, ValueOf(n))
    ensures (Written(n) + rest)[|Written(n)|..] == rest
  {
    hide GetValue, Number, Ends, AllDigits;
    if n.Decimal? {
      DecimalIsRead(n.digits, rest);
    } else {
      HexadecimalIsRead(n.digits, rest);
      assert Written(n) + rest == "$" + (n.digits + rest);
    }
  }

  /** One character and what follows it. */
  lemma Behind(c: char, rest: string)
    ensures ([c] + rest)[0] == c && ([c] + rest)[1..] == rest
  {
  }

  lemma DigitsAreScanned(d: string, k: nat, base: nat)
    requires 0 < k <= |d| && AllDigits(d[..k], base) && Ends(d[k..]) && Run(d, base) == k
    requires base == 10 || base == 16
    ensures Scan(d, base) == Scanned(Wrap16(Number(d[..k], base)))
  {
    assert IsDigit(d[..k][0], base);
    assert Skip(d) == d;
    if |d| > 1 {
      if k == 1 {
        assert d[1] == d[k..][0];
      } else {
        assert IsDigit(d[..k][1], base);
      }
    }
    hide Number, Run, Skip, Wrap16;
  }

  // --- Operands ---------------------------------------------------------------------

  /** An operand with the white space in it. */
  datatype Form =
    | NoOperand
    | InA(g: string)
    | Constant(n: Numeral, g: string)
    | Direct(n: Numeral, g: string)
    | WithIndex(n: Numeral, g: string, h: string, byX: bool, k: string)
    | Bracket(n: Numeral, g: string, h: string)
    | BracketX(n: Numeral, g: string, h: string, k: string, l: string)
    | BracketY(n: Numeral, g: string, h: string, k: string)

  predicate WellFormed(f: Form) {
    match f
    case NoOperand => true
    case InA(g) => Blank(g)
    case Constant(n, g) => Proper(n) && Blank(g)
    case Direct(n, g) => Proper(n) && Blank(g)
    case WithIndex(n, g, h, _, k) => Proper(n) && Blank(g) && Blank(h) && Blank(k)
    case Bracket(n, g, h) => Proper(n) && Blank(g) && Blank(h)
    case BracketX(n, g, h, k, l) => Proper(n) && Blank(g) && Blank(h) && Blank(k) && Blank(l)
    case BracketY(n, g, h, k) => Proper(n) && Blank(g) && Blank(h) && Blank(k)
  }

  function Text(f: Form): string {
    match f
    case NoOperand => ""
    case InA(g) => "A" + g
    case Constant(n, g) => "#" + (Written(n) + g)
    case Direct(n, g) => Written(n) + g
    case WithIndex(n, g, h, byX, k) => Written(n) + (g + ("," + (h + ((if byX then "X" else "Y") + k))))
    case Bracket(n, g, h) => "(" + (Written(n) + (g + (")" + h)))
    case BracketX(n, g, h, k, l) => "(" + (Written(n) + (g + ("," + (h + ("X" + (k + (")" + l)))))))
    case BracketY(n, g, h, k) => "(" + (Written(n) + (g + (")" + (h + (",Y" + k)))))
  }

  /** An operand of one byte. */
  function Short(mode: Mode, v: word): Operand {
    if v <= 255 then Operand(mode, 2, v) else BadOperand
  }

  function Meaning(mne: string, addr: word, f: Form): Operand {
    match f
    case NoOperand => Operand(Implied, 1, 0)
    case InA(_) => Operand(Accumulator, 1, 0)
    case Constant(n, _) => Short(Immediate, ValueOf(n))
    case Direct(n, _) =>
      var v := ValueOf(n);
      if v <= 255 && Has(mne, ZeroPage) then Operand(ZeroPage, 2, v)
      else if Has(mne, Relative) then Operand(Relative, 2, (v - addr - 1) % 256)
      else Operand(Absolute, 3, v)
    case WithIndex(n, _, _, byX, _) =>
      var v := ValueOf(n);
      if v <= 255 && Has(mne, if byX then ZeroPageX else ZeroPageY)
      then Operand(if byX then ZeroPageX else ZeroPageY, 2, v)
      else Operand(if byX then AbsoluteX else AbsoluteY, 3, v)
    case Bracket(n, _, _) => Operand(IndirectAbsolute, 3, ValueOf(n))
    case BracketX(n, _, _, _, _) => Short(IndexedIndirect, ValueOf(n))
    case BracketY(n, _, _, _) => Short(IndirectIndexed, ValueOf(n))
  }

  lemma WrittenStarts(n: Numeral)
    requires Proper(n)
    ensures Written(n) != "" && (IsDigit(Written(n)[0], 10) || Written(n)[0] == '$')
    ensures Written(n)[0] !in {'A', '#', '('} && !IsSpace(Written(n)[0])
  {
    assert IsDigit(n.digits[0], Base(n));
  }

  /** After blanks: a character that is not a space, or the end. */
  lemma AfterBlanks(g: string, rest: string)
    requires Blank(g) && (rest == "" || !IsSpace(rest[0]))
    ensures Skip(g + rest) == rest
    ensures rest == "" || rest[0] == ',' || rest[0] == ')' ==> Ends(g + rest)
  {
    SkipOverBlank(g, rest);
    if g != "" {
      assert (g + rest)[0] == g[0];
    }
  }

  lemma ConstantIsParsed(mne: string, addr: word, n: Numeral, g: string)
    requires Proper(n) && Blank(g)
    ensures Parse(mne, addr, "#" + (Written(n) + g)) == Short(Immediate, ValueOf(n))
  {
    var s := "#" + (Written(n) + g);
    assert s[0] == '#' && s[1..] == Written(n) + g;
    AfterBlanks(g, "");
    assert g + "" == g;
    NumeralIsRead(n, g);
    hide GetValue, Skip, Written, ValueOf;
  }

  lemma DirectIsParsed(mne: string, addr: word, n: Numeral, rest: string)
    requires Proper(n) && Ends(rest)
    ensures Parse(mne, addr, Written(n) + rest)
         == var t := Skip(rest);
            if t == "" then Unindexed(mne, addr, ValueOf(n))
            else if t[0] == ',' then ParseIndex(mne, ValueOf(n), Skip(t[1..]))
            else BadOperand
  {
    WrittenStarts(n);
    var s := Written(n) + rest;
    assert s[0] == Written(n)[0];
    NumeralIsRead(n, rest);
    hide GetValue, Skip, Written, ValueOf, Unindexed, ParseIndex, ParseIndirect, IsDigit;
  }

  lemma BracketIsParsed(mne: string, addr: word, n: Numeral, rest: string)
    requires Proper(n) && Ends(rest)
    ensures Parse(mne, addr, "(" + (Written(n) + rest))
         == var t := Skip(rest);
            if t != "" && t[0] == ')' then ClosedBracket(ValueOf(n), Skip(t[1..]))
            else if t != "" && t[0] == ',' then IndexInBracket(ValueOf(n), Skip(t[1..]))
            else Operand(Implied, 0, ValueOf(n))
  {
    WrittenStarts(n);
    NumeralIsRead(n, rest);
    hide GetValue, Skip, Written, ValueOf, ClosedBracket, IndexInBracket, Parse, Ends, Proper;
    OpensBracket(mne, addr, Written(n) + rest);
  }

  lemma OpensBracket(mne: string, addr: word, s: string)
    ensures Parse(mne, addr, "(" + s) == ParseIndirect(s)
  {
    Behind('(', s);
    hide ParseIndirect, ParseDirect, GetValue, Skip;
  }

  lemma IndexIsParsed(mne: string, v: word, h: string, byX: bool, k: string)
    requires Blank(h) && Blank(k)
    ensures ParseIndex(mne, v, Skip(h + ([if byX then 'X' else 'Y'] + k)))
         == if byX then Indexed(mne, v, ZeroPageX, AbsoluteX) else Indexed(mne, v, ZeroPageY, AbsoluteY)
  {
    var register := if byX then 'X' else 'Y';
    Behind(register, k);
    AfterBlanks(h, [register] + k);
    AfterBlanks(k, "");
    assert k + "" == k;
    hide Skip, Indexed;
  }

  /** Every operand of the grammar is taken for what it means, whatever the white space. */
  lemma FormIsParsed(mne: string, addr: word, f: Form)
    requires WellFormed(f)
    ensures Parse(mne, addr, Text(f)) == Meaning(mne, addr, f)
  {
    hide Parse, ValueOf, Written, Skip, Proper, Has;
    match f {
      case NoOperand => PlainIsParsed(mne, addr, "");
      case InA(g) => PlainIsParsed(mne, addr, g);
      case Constant(n, g) => ConstantIsParsed(mne, addr, n, g);
      case Direct(n, g) =>
        AfterBlanks(g, "");
        assert g + "" == g;
        DirectIsParsed(mne, addr, n, g);
      case WithIndex(n, g, h, byX, k) =>
        var tail := h + ((if byX then "X" else "Y") + k);
        Behind(',', tail);
        AfterBlanks(g, "," + tail);
        DirectIsParsed(mne, addr, n, g + ("," + tail));
        IndexIsParsed(mne, ValueOf(n), h, byX, k);
      case Bracket(n, g, h) =>
        Behind(')', h);
        AfterBlanks(g, ")" + h);
        AfterBlanks(h, "");
        assert h + "" == h;
        BracketIsParsed(mne, addr, n, g + (")" + h));
      case BracketX(n, g, h, k, l) =>
        InBracketIsParsed(ValueOf(n), h, k, l);
        Behind(',', h + ("X" + (k + (")" + l))));
        AfterBlanks(g, "," + (h + ("X" + (k + (")" + l)))));
        BracketIsParsed(mne, addr, n, g + ("," + (h + ("X" + (k + (")" + l))))));
      case BracketY(n, g, h, k) =>
        BehindBracketIsParsed(ValueOf(n), h, k);
        Behind(')', h + (",Y" + k));
        AfterBlanks(g, ")" + (h + (",Y" + k)));
        BracketIsParsed(mne, addr, n, g + (")" + (h + (",Y" + k))));
    }
  }

  lemma PlainIsParsed(mne: string, addr: word, g: string)
    requires Blank(g)
    ensures Parse(mne, addr, "") == Operand(Implied, 1, 0) && Parse(mne, addr, "A" + g) == Operand(Accumulator, 1, 0)
  {
    Behind('A', g);
    AfterBlanks(g, "");
    assert g + "" == g;
    hide Skip;
  }

  lemma InBracketIsParsed(v: word, h: string, k: string, l: string)
    requires Blank(h) && Blank(k) && Blank(l)
    ensures IndexInBracket(v, Skip(h + ("X" + (k + (")" + l))))) == Short(IndexedIndirect, v)
  {
    Behind('X', k + (")" + l));
    AfterBlanks(h, "X" + (k + (")" + l)));
    Behind(')', l);
    AfterBlanks(k, ")" + l);
    AfterBlanks(l, "");
    assert l + "" == l;
    hide Skip;
  }

  lemma BehindBracketIsParsed(v: word, h: string, k: string)
    requires Blank(h) && Blank(k)
    ensures ClosedBracket(v, Skip(h + (",Y" + k))) == Short(IndirectIndexed, v)
  {
    assert (",Y" + k)[0] == ',' && (",Y" + k)[1] == 'Y' && (",Y" + k)[2..] == k;
    AfterBlanks(h, ",Y" + k);
    AfterBlanks(k, "");
    assert k + "" == k;
    hide Skip;
  }

  /** Decimal or hexadecimal makes no difference: operands that differ in how their numbers are written mean the
      same. */
  lemma RadixDoesNotMatter(mne: string, addr: word, f: Form, n: Numeral)
    requires WellFormed(f) && !f.NoOperand? && !f.InA? && Proper(n) && ValueOf(n) == ValueOf(f.n)
    ensures Parse(mne, addr, Text(f.(n := n))) == Parse(mne, addr, Text(f))
  {
    hide Parse, ValueOf, Text, Proper, Has;
    FormIsParsed(mne, addr, f);
    FormIsParsed(mne, addr, f.(n := n));
  }

  // --- Nothing else is taken --------------------------------------------------------

  lemma {:induction false} SkipSplits(s: string) returns (b: string)
    ensures Blank(b) && s == b + Skip(s)
  {
    if s != "" && IsSpace(s[0]) {
      var c := SkipSplits(s[1..]);
      b := [s[0]] + c;
      assert s == [s[0]] + s[1..];
    } else {
      b := "";
    }
  }

  /** A number that is plain is a numeral with its value. */
  lemma PlainIsNumeral(p: string) returns (n: Numeral, rest: string)
    requires p != "" && Plain(p, GetValue(p))
    ensures Proper(n) && p == Written(n) + rest
    ensures GetValue(p) == Value(|Written(n)|, ValueOf(n)) && p[|Written(n)|..] == rest
  {
    var v := GetValue(p);
    if p[0] == '$' {
      n := Hexadecimal(p[1..v.length]);
      assert "$" + p[1..v.length] == p[..v.length];
    } else {
      n := Decimal(p[..v.length]);
    }
    rest := p[v.length..];
    hide Number, GetValue;
  }

  /** The index behind a comma. */
  lemma IndexIsWritten(mne: string, v: word, u: string) returns (byX: bool, k: string)
    requires ParseIndex(mne, v, u).Operand?
    ensures Blank(k) && u == [if byX then 'X' else 'Y'] + k
  {
    hide Skip, Indexed;
    k := SkipSplits(u[1..]);
    assert k + "" == k;
    byX := u[0] == 'X';
  }

  lemma WithIndexIsWritten(mne: string, n: Numeral, g: string, t: string) returns (f: Form)
    requires Proper(n) && Blank(g) && t != "" && t[0] == ','
    requires ParseIndex(mne, ValueOf(n), Skip(t[1..])).Operand?
    ensures WellFormed(f) && Text(f) == Written(n) + (g + t)
  {
    hide Skip, Written, ValueOf, ParseIndex, Proper, Blank;
    var h := SkipSplits(t[1..]);
    var byX, k := IndexIsWritten(mne, ValueOf(n), Skip(t[1..]));
    f := WithIndex(n, g, h, byX, k);
    assert (if byX then "X" else "Y") == [if byX then 'X' else 'Y'];
    assert t == "," + t[1..];
  }

  lemma DirectIsWritten(mne: string, addr: word, s: string) returns (f: Form)
    requires s != "" && ParseDirect(mne, addr, s).Operand? && Plain(s, GetValue(s))
    ensures WellFormed(f) && Text(f) == s
  {
    var n, rest := PlainIsNumeral(s);
    var g := SkipSplits(rest);
    var t := Skip(rest);
    hide Skip, GetValue, Written, ValueOf, ParseIndex, Plain, Unindexed, Blank, Proper;
    if t == "" {
      assert g + "" == g;
      f := Form.Direct(n, g);
    } else {
      hide Text, WellFormed;
      f := WithIndexIsWritten(mne, n, g, t);
    }
  }

  lemma InBracketIsWritten(v: word, u: string) returns (k: string, l: string)
    requires IndexInBracket(v, u).Operand?
    ensures Blank(k) && Blank(l) && u == "X" + (k + (")" + l))
  {
    hide Skip;
    k := SkipSplits(u[1..]);
    var w := Skip(u[1..]);
    l := SkipSplits(w[1..]);
    assert l + "" == l;
    assert w == ")" + w[1..];
    assert u == "X" + u[1..];
  }

  lemma ClosedIsWritten(n: Numeral, g: string, t: string) returns (f: Form)
    requires Proper(n) && Blank(g) && t != "" && t[0] == ')' && ClosedBracket(ValueOf(n), Skip(t[1..])).Operand?
    ensures WellFormed(f) && Text(f) == "(" + (Written(n) + (g + t))
  {
    hide Skip, Written, ValueOf, Proper, Blank;
    var h := SkipSplits(t[1..]);
    var u := Skip(t[1..]);
    assert t == ")" + t[1..];
    if u == "" {
      assert h + "" == h;
      f := Bracket(n, g, h);
    } else {
      var k := SkipSplits(u[2..]);
      assert k + "" == k;
      assert u == ",Y" + u[2..];
      f := BracketY(n, g, h, k);
    }
  }

  lemma IndexedIsWritten(n: Numeral, g: string, t: string) returns (f: Form)
    requires Proper(n) && Blank(g) && t != "" && t[0] == ',' && IndexInBracket(ValueOf(n), Skip(t[1..])).Operand?
    ensures WellFormed(f) && Text(f) == "(" + (Written(n) + (g + t))
  {
    hide Skip, Written, ValueOf, Proper, Blank, IndexInBracket;
    var h := SkipSplits(t[1..]);
    var k, l := InBracketIsWritten(ValueOf(n), Skip(t[1..]));
    assert t == "," + t[1..];
    f := BracketX(n, g, h, k, l);
  }

  lemma BracketIsWritten(s: string) returns (f: Form)
    requires s != "" && ParseIndirect(s).Operand? && ParseIndirect(s).length > 0 && Plain(s, GetValue(s))
    ensures WellFormed(f) && Text(f) == "(" + s
  {
    var n, rest := PlainIsNumeral(s);
    var g := SkipSplits(rest);
    var t := Skip(rest);
    hide Skip, GetValue, Written, ValueOf, IndexInBracket, ClosedBracket, Plain, Text, WellFormed, Proper, Blank;
    if t[0] == ')' {
      f := ClosedIsWritten(n, g, t);
    } else {
      f := IndexedIsWritten(n, g, t);
    }
  }

  lemma ConstantIsWritten(s: string) returns (f: Form)
    requires s != "" && GetValue(s).Value? && Skip(s[GetValue(s).length..]) == "" && Plain(s, GetValue(s))
    ensures WellFormed(f) && Text(f) == "#" + s
  {
    var n, rest := PlainIsNumeral(s);
    var g := SkipSplits(rest);
    assert g + "" == g;
    hide Skip, GetValue, Written, Plain;
    f := Constant(n, g);
  }

  /** Every operand that the assembler takes, with a positive length, is one of the grammar. */
  lemma AcceptedIsWritten(mne: string, addr: word, s: string) returns (f: Form)
    requires Parse(mne, addr, s).Operand? && Parse(mne, addr, s).length > 0
    ensures WellFormed(f) && Text(f) == s && Parse(mne, addr, s) == Meaning(mne, addr, f)
  {
    if s == "" {
      f := NoOperand;
    } else if s[0] == 'A' {
      var g := SkipSplits(s[1..]);
      assert g + "" == g && s == "A" + s[1..];
      f := InA(g);
    } else {
      f := NumberIsWritten(mne, addr, s);
    }
    hide Parse, Text, WellFormed, Meaning;
    FormIsParsed(mne, addr, f);
  }

  lemma NumberIsWritten(mne: string, addr: word, s: string) returns (f: Form)
    requires Parse(mne, addr, s).Operand? && Parse(mne, addr, s).length > 0 && s != "" && s[0] != 'A'
    ensures WellFormed(f) && Text(f) == s
  {
    hide Skip, GetValue, ParseDirect, ParseIndirect, Plain, Has, WellFormed, Text;
    TwoBytesAtLeast(mne, addr, s);
    OperandsArePlain(mne, addr, s);
    NothingIsNoValue();
    if s[0] == '#' {
      assert s == "#" + s[1..];
      f := ConstantIsWritten(s[1..]);
    } else if s[0] == '(' {
      assert s == "(" + s[1..];
      BracketHasNumber(s[1..]);
      f := BracketIsWritten(s[1..]);
    } else {
      f := DirectIsWritten(mne, addr, s);
    }
  }

  lemma NothingIsNoValue()
    ensures GetValue("") == NoValue
  {
  }

  lemma BracketHasNumber(s: string)
    requires ParseIndirect(s).Operand?
    ensures GetValue(s).Value?
  {
    hide GetValue, Skip;
  }

  lemma TwoBytesAtLeast(mne: string, addr: word, s: string)
    requires Parse(mne, addr, s).Operand? && Parse(mne, addr, s).length > 0 && s != "" && s[0] != 'A'
    ensures Parse(mne, addr, s).length >= 2
  {
    hide GetValue, Skip, Has;
  }

  // --- Lines ------------------------------------------------------------------------

  lemma {:induction false} UpperSkips(s: string)
    ensures Skip(Upper(s)) == Upper(Skip(s))
  {
    if s != "" && IsSpace(s[0]) {
      assert Upper(s)[1..] == Upper(s[1..]);
      UpperSkips(s[1..]);
    }
  }

  /** The opcode, the low byte and the high byte, as many of them as the mode has. */
  function Code(opcode: byte, v: word, length: nat): seq<byte>
    requires 1 <= length <= 3
  {
    [opcode, v % 256, v / 256][..length]
  }

  /** What a line means: the opcode is that of the first row of the table with this mnemonic and mode. */
  function LineMeans(m: Mnemonic, addr: word, f: Form): Assembled {
    var o := Meaning(Spell(m), addr, f);
    if o.BadOperand? then Rejected
    else
      var i := FindMnemonic(Spell(m), Only(o.mode));
      if i == ROWS || !(1 <= o.length <= 3) then Rejected
      else Assembled(o.length, Code(RowAt(i).opcode, o.value, o.length))
  }

  /** Blanks, a mnemonic in upper or lower case, blanks or none, and an operand of the grammar make an instruction that
      is assembled as it means; a mnemonic without this mode is rejected. */
  lemma LineIsAssembled(addr: word, line: string, before: string, m: Mnemonic, g: string, f: Form)
    requires Blank(before) && Blank(g) && WellFormed(f)
    requires Upper(line) == before + (Spell(m) + (g + Text(f)))
    ensures As(addr, line) == LineMeans(m, addr, f)
  {
    hide Skip, Spell, WellFormed, Text, Meaning, Parse, RowAt, FindMnemonic, Has, Number;
    var rest := g + Text(f);
    SpelledInCapitals(m);
    SpellOpens(before, m, rest);
    UpperSkips(line);
    var p := Skip(line);
    assert Upper(p) == Spell(m) + rest && |p| >= 3;
    assert p[0] != '.' by { assert Upper(p)[0] == UpperChar(p[0]); }
    FormStarts(f);
    AfterBlanks(g, Text(f));
    assert (Spell(m) + rest)[..3] == Spell(m) && (Spell(m) + rest)[3..] == rest;
    FormIsParsed(Spell(m), addr, f);
    assert As(addr, line) == AsUpper(addr, Spell(m) + rest);
    MeansInstruction(m, addr, f);
  }

  lemma SpellOpens(before: string, m: Mnemonic, rest: string)
    requires Blank(before) && Capitals(Spell(m)) && |Spell(m)| == 3
    ensures Skip(before + (Spell(m) + rest)) == Spell(m) + rest && 'A' <= (Spell(m) + rest)[0] <= 'Z'
  {
    hide Spell;
    assert 'A' <= Spell(m)[0] <= 'Z';
    SkipOverBlank(before, Spell(m) + rest);
  }

  lemma FormStarts(f: Form)
    requires WellFormed(f)
    ensures Text(f) == "" || !IsSpace(Text(f)[0])
  {
    if f.Direct? || f.WithIndex? {
      WrittenStarts(f.n);
    }
    hide Written, Proper;
  }

  lemma MeansInstruction(m: Mnemonic, addr: word, f: Form)
    ensures var o := Meaning(Spell(m), addr, f);
            && LineMeans(m, addr, f)
               == (if FindMnemonic(Spell(m), AnyMode) == ROWS || o.BadOperand? then Rejected
                   else AssemblerRoundTrip.Written(Spell(m), o))
  {
    var o := Meaning(Spell(m), addr, f);
    MeaningHasLength(Spell(m), addr, f);
    hide Spell, RowAt, Meaning, FindMnemonic, Code, Emit;
    if o.Operand? {
      EmitsCode(o);
      FoundInAnyMode(Spell(m), o.mode);
    }
  }

  lemma MeaningHasLength(mne: string, addr: word, f: Form)
    ensures Meaning(mne, addr, f).Operand? ==> 1 <= Meaning(mne, addr, f).length <= 3
  {
    hide ValueOf, Has;
  }

  lemma FoundInAnyMode(mne: string, mode: Mode)
    ensures var i := FindMnemonic(mne, Only(mode)); i <= ROWS && (i < ROWS ==> FindMnemonic(mne, AnyMode) != ROWS)
  {
    hide RowAt, Spell;
    var i := FindMnemonic(mne, Only(mode));
    assert i < ROWS ==> Fits(RowAt(i), mne, AnyMode);
  }

  lemma EmitsCode(o: Operand)
    requires o.Operand? && 1 <= o.length <= 3
    ensures forall opcode: byte :: Emit(opcode, o.value, o.length) == Code(opcode, o.value, o.length)
  {
  }

  /** Upper and lower case make no difference. */
  lemma CaseDoesNotMatter(addr: word, a: string, b: string)
    requires Upper(a) == Upper(b)
    ensures As(addr, a) == As(addr, b)
  {
    UpperSkips(a);
    UpperSkips(b);
    var p, q := Skip(a), Skip(b);
    hide Skip, AsUpper;
    assert Upper(p) == Upper(q) && |p| == |Upper(p)| == |q|;
    if p != "" {
      assert UpperChar(p[0]) == Upper(p)[0] == Upper(q)[0] == UpperChar(q[0]);
    }
  }

  /** Every line that is taken as an instruction with positive length is one of these. */
  lemma AcceptedLineIsWritten(addr: word, line: string) returns (before: string, m: Mnemonic, g: string, f: Form)
    requires As(addr, line).Assembled? && As(addr, line).length > 0
    ensures Blank(before) && Blank(g) && WellFormed(f)
    ensures Upper(line) == before + (Spell(m) + (g + Text(f))) && As(addr, line) == LineMeans(m, addr, f)
  {
    hide Skip, Spell, WellFormed, Text, Meaning, Parse, RowAt, FindMnemonic, LineMeans;
    var p := Skip(line);
    var u := Upper(p);
    before := SkipSplits(line);
    UpperConcat(before, p);
    UpperBlank(before);
    var rest := u[3..];
    g := SkipSplits(rest);
    var o := Parse(u[..3], addr, Skip(rest));
    assert As(addr, line) == AsUpper(addr, u);
    var i := FindMnemonic(u[..3], Only(o.mode));
    FoundRow(u[..3], o.mode);
    m := RowAt(i).mnemonic;
    f := AcceptedIsWritten(u[..3], addr, Skip(rest));
    assert u == Spell(m) + rest;
    LineIsAssembled(addr, line, before, m, g, f);
  }

  // --- What is printed --------------------------------------------------------------

  const DIGITS := "0123456789abcdef"

  /** Two hexadecimal digits, in lower case. */
  function Two(b: byte): string {
    [DIGITS[b / 16], DIGITS[b % 16]]
  }

  /** How the disassembler writes an operand: numbers in hexadecimal, an address with its high byte first, a branch by
      its target, and no white space. */
  function Printed(addr: word, mode: Mode, lo: byte, hi: byte): Form {
    var one, two := Hexadecimal(Two(lo)), Hexadecimal(Two(hi) + Two(lo));
    match mode
    case Implied => NoOperand
    case Accumulator => InA("")
    case Immediate => Constant(one, "")
    case ZeroPage => Form.Direct(one, "")
    case ZeroPageX => WithIndex(one, "", "", true, "")
    case ZeroPageY => WithIndex(one, "", "", false, "")
    case Absolute => Form.Direct(two, "")
    case AbsoluteX => WithIndex(two, "", "", true, "")
    case AbsoluteY => WithIndex(two, "", "", false, "")
    case IndirectAbsolute => Bracket(two, "", "")
    case IndexedIndirect => BracketX(one, "", "", "", "")
    case IndirectIndexed => BracketY(one, "", "", "")
    case Relative =>
      var target := (addr + 1 + if lo < 128 then lo else lo - 256) % 0x1_0000;
      Form.Direct(Hexadecimal(Two(target / 256) + Two(target % 256)), "")
  }

  lemma DigitIsPrinted(d: nat)
    requires d < 16
    ensures HexChar(d) == DIGITS[d]
  {
  }

  lemma BytesArePrinted(b: byte, w: word)
    ensures Hex2(b) == Two(b) && Hex4(w) == Two(w / 256) + Two(w % 256)
  {
    DigitIsPrinted(b / 16);
    DigitIsPrinted(b % 16);
    DigitIsPrinted(w / 256 / 16);
    DigitIsPrinted(w / 256 % 16);
    DigitIsPrinted(w % 256 / 16);
    DigitIsPrinted(w % 256 % 16);
    hide HexChar;
  }

  /** Without white space the grammar's text is this. */
  lemma WithoutGaps(n: Numeral)
    ensures Text(Constant(n, "")) == "#" + Written(n) && Text(Form.Direct(n, "")) == Written(n)
    ensures Text(WithIndex(n, "", "", true, "")) == Written(n) + ",X"
    ensures Text(WithIndex(n, "", "", false, "")) == Written(n) + ",Y"
  {
    hide Written;
    assert "" + ("," + ("" + ("X" + ""))) == ",X" && "" + ("," + ("" + ("Y" + ""))) == ",Y";
  }

  lemma WithoutGapsInBrackets(n: Numeral)
    ensures Text(Bracket(n, "", "")) == "(" + Written(n) + ")"
    ensures Text(BracketX(n, "", "", "", "")) == "(" + Written(n) + ",X)"
    ensures Text(BracketY(n, "", "", "")) == "(" + Written(n) + "),Y"
  {
    hide Written;
    assert "" + (")" + "") == ")" && "" + (")" + ("" + (",Y" + ""))) == "),Y";
    assert "" + ("," + ("" + ("X" + ("" + (")" + ""))))) == ",X)";
  }

  /** The dollar sign belongs to the number. */
  lemma DollarInNumber(h: string)
    ensures "#$" + h == "#" + ("$" + h) && "($" + h == "(" + ("$" + h)
  {
  }

  lemma ShortIsPrinted(addr: word, mode: Mode, lo: byte, hi: byte)
    requires mode == Implied || mode == Accumulator || mode == Immediate || mode == ZeroPage || mode == ZeroPageX
             || mode == ZeroPageY || mode == IndexedIndirect || mode == IndirectIndexed
    ensures OperandText(addr, mode, lo, hi) == Text(Printed(addr, mode, lo, hi))
  {
    BytesArePrinted(lo, 0);
    var one := Hexadecimal(Two(lo));
    WithoutGaps(one);
    WithoutGapsInBrackets(one);
    DollarInNumber(Two(lo));
    assert Text(NoOperand) == "" && Text(InA("")) == "A";
    hide Hex2, Hex4, Two, Text, Target;
  }

  lemma LongIsPrinted(addr: word, mode: Mode, lo: byte, hi: byte)
    requires mode == Absolute || mode == AbsoluteX || mode == AbsoluteY || mode == IndirectAbsolute
    ensures OperandText(addr, mode, lo, hi) == Text(Printed(addr, mode, lo, hi))
  {
    BytesArePrinted(lo, Word(lo, hi));
    assert Word(lo, hi) / 256 == hi && Word(lo, hi) % 256 == lo;
    var two := Hexadecimal(Two(hi) + Two(lo));
    WithoutGaps(two);
    WithoutGapsInBrackets(two);
    DollarInNumber(Two(hi) + Two(lo));
    hide Hex2, Hex4, Two, Text, Target, Word;
  }

  lemma TargetIsPrinted(addr: word, lo: byte, hi: byte)
    ensures OperandText(addr, Relative, lo, hi) == Text(Printed(addr, Relative, lo, hi))
  {
    var target := (addr + 1 + if lo < 128 then lo else lo - 256) % 0x1_0000;
    assert Target(addr, lo) == target;
    BytesArePrinted(lo, target);
    WithoutGaps(Hexadecimal(Two(target / 256) + Two(target % 256)));
    hide Hex2, Hex4, Two, Text, Target;
  }

  lemma OperandIsPrinted(addr: word, mode: Mode, lo: byte, hi: byte)
    ensures OperandText(addr, mode, lo, hi) == Text(Printed(addr, mode, lo, hi))
  {
    hide OperandText, Text, Printed;
    if mode == Relative {
      TargetIsPrinted(addr, lo, hi);
    } else if mode == Absolute || mode == AbsoluteX || mode == AbsoluteY || mode == IndirectAbsolute {
      LongIsPrinted(addr, mode, lo, hi);
    } else {
      ShortIsPrinted(addr, mode, lo, hi);
    }
  }

  /** What is printed: three question marks, or the mnemonic of the first row with this opcode, and after a blank its
      operand. */
  lemma InstructionIsPrinted(addr: word, op: seq<byte>)
    requires |op| == 3
    ensures var i := RowOfOpcode(op[0], 0);
            && (i == ROWS ==> Das(addr, op).text == "???")
            && (i < ROWS && RowAt(i).mode == Implied ==> Das(addr, op).text == Spell(RowAt(i).mnemonic))
            && (i < ROWS && RowAt(i).mode != Implied ==>
                  Das(addr, op).text
                  == Spell(RowAt(i).mnemonic) + (" " + Text(Printed(addr, RowAt(i).mode, op[1], op[2]))))
  {
    hide RowAt, Spell, OperandText, Text, Printed;
    var i := RowOfOpcode(op[0], 0);
    if i < ROWS {
      OperandIsPrinted(addr, RowAt(i).mode, op[1], op[2]);
      hide RowOfOpcode;
      assert Spell(RowAt(i).mnemonic) + "" == Spell(RowAt(i).mnemonic);
    }
  }

  // --- Examples ---------------------------------------------------------------------

  lemma JumpRows()
    ensures RowAt(44) == Row(0x4c, JMP, Absolute) && Canonical(44) == 44
    ensures RowAt(62) == Row(0x6c, JMP, IndirectAbsolute) && Canonical(62) == 62
    ensures Encode(JMP, ZeroPage) == 0x6c && !Branch(JMP)
  {
    hide Named, Spell;
  }

  lemma JumpIsNotZeroPage(j: nat)
    requires j < ROWS && RowAt(j).mnemonic == JMP
    ensures RowAt(j).mode != ZeroPage
  {
    JumpRows();
    EveryRowOk(j);
    hide RowAt, Spell, Canonical, Encode, Branch, Duplicate;
    if RowAt(j).mode == ZeroPage {
      RowByOpcode(62);
      RowByOpcode(Canonical(j));
    }
  }

  lemma JumpHasNoShortForm()
    ensures !Has(Spell(JMP), ZeroPage) && !Has(Spell(JMP), Relative)
    ensures FindMnemonic(Spell(JMP), Only(Absolute)) == 44 && RowAt(44).opcode == 0x4c
  {
    JumpRows();
    hide RowAt, Spell, Canonical, Encode, Branch, Duplicate;
    RowByMnemonic(44);
    RelativeIsBranch(44);
    var j := FindMnemonic(Spell(JMP), Only(ZeroPage));
    if j < ROWS {
      NamedBySpelling(JMP);
      NamedBySpelling(RowAt(j).mnemonic);
      JumpIsNotZeroPage(j);
    }
  }

  lemma JumpMeans(addr: word, n: Numeral, g: string)
    ensures var v := ValueOf(n);
            LineMeans(JMP, addr, Form.Direct(n, g)) == Assembled(3, [0x4c, v % 256, v / 256])
  {
    JumpHasNoShortForm();
    hide Spell, RowAt, ValueOf, FindMnemonic;
    assert [0x4c, ValueOf(n) % 256, ValueOf(n) / 256][..3] == [0x4c, ValueOf(n) % 256, ValueOf(n) / 256];
  }

  /** A jump to any decimal number, in lower case and with white space around it. */
  lemma DecimalJump(addr: word, line: string, digits: string)
    requires digits != "" && AllDigits(digits, 10) && Upper(line) == "  " + ("JMP" + (" " + (digits + "\n")))
    ensures var v := Number(digits, 10) % 0x1_0000; As(addr, line) == Assembled(3, [0x4c, v % 256, v / 256])
  {
    var f := Form.Direct(Decimal(digits), "\n");
    assert Text(f) == digits + "\n";
    assert Spell(JMP) == "JMP" && Blank("  ") && Blank(" ") && Blank("\n");
    JumpHasNoShortForm();
    JumpMeans(addr, f.n, "\n");
    hide As, Spell, LineMeans, Number, Blank, Text, AllDigits, Code;
    LineIsAssembled(addr, line, "  ", JMP, " ", f);
  }

  // --- Characters -------------------------------------------------------------------

  const CAPITAL_DIGITS := "0123456789ABCDEF"
  const SMALL := "abcdefghijklmnopqrstuvwxyz"
  const CAPITAL := "ABCDEFGHIJKLMNOPQRSTUVWXYZ"

  lemma DigitsMean(i: nat)
    requires i < 16
    ensures Digit(DIGITS[i]) == i && Digit(CAPITAL_DIGITS[i]) == i
  {
  }

  /** The digits of the two radices, and nothing else. */
  lemma DigitsAre(c: char)
    ensures IsDigit(c, 10) <==> c in "0123456789"
    ensures IsDigit(c, 16) <==> c in "0123456789abcdefABCDEF"
  {
    var s := "0123456789abcdefABCDEF";
    if '0' <= c <= '9' {
      assert c == s[c as int - '0' as int];
    } else if 'a' <= c <= 'f' {
      assert c == s[c as int - 'a' as int + 10];
    } else if 'A' <= c <= 'F' {
      assert c == s[c as int - 'A' as int + 16];
    }
    assert '0' <= c <= '9' ==> c == "0123456789"[c as int - '0' as int];
  }

  lemma CapitalsMean(i: nat)
    requires i < 26
    ensures UpperChar(SMALL[i]) == CAPITAL[i]
  {
  }

  lemma OthersStay(c: char)
    ensures c !in SMALL ==> UpperChar(c) == c
  {
    if 'a' <= c <= 'z' {
      assert c == SMALL[c as int - 'a' as int];
    }
  }

  lemma SpacesAre(c: char)
    ensures IsSpace(c) <==> c as int in {9, 10, 11, 12, 13, 32}
  {
  }

  // --- What is left and how long it is ----------------------------------------------

  /** A line of at least three characters behind its white space is left in capitals, others and data lines as they
      were. */
  lemma LineIsLeft(line: string)
    ensures Uppercased(line) == if |Skip(line)| >= 3 && Skip(line)[0] != '.' then Upper(line) else line
  {
    var before := SkipSplits(line);
    UpperConcat(before, Skip(line));
    UpperBlank(before);
    assert before == line[..|line| - |Skip(line)|];
  }

  /** One byte, two or three. What is no instruction has one. */
  lemma LengthIsPrinted(addr: word, op: seq<byte>)
    requires |op| == 3
    ensures var i := RowOfOpcode(op[0], 0);
            Das(addr, op).length
            == if i == ROWS || RowAt(i).mode in {Implied, Accumulator} then 1
               else if RowAt(i).mode in {Absolute, AbsoluteX, AbsoluteY, IndirectAbsolute} then 3 else 2
  {
    hide RowAt, Spell, OperandText;
  }
}
