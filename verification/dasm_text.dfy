/** C strings as the assembler reads and prints them: white space, case, and numbers. */
module DasmText {
  import opened Bits

  /** `isspace` */
  predicate IsSpace(c: char) {
    c == ' ' || '\t' <= c <= '\r'
  }

  predicate Blank(s: string) {
    forall i | 0 <= i < |s| :: IsSpace(s[i])
  }

  /** `skip_whitespace`: the suffix at the first character that is not white space. */
  function Skip(s: string): (t: string)
    ensures |t| <= |s|
    ensures t == "" || !IsSpace(t[0])
  {
    if s != "" && IsSpace(s[0]) then Skip(s[1..]) else s
  }

  lemma {:induction false} SkipOverBlank(b: string, s: string)
    requires Blank(b) && (s == "" || !IsSpace(s[0]))
    ensures Skip(b + s) == s
  {
    if b == "" {
      assert b + s == s;
    } else {
      SkipOverBlank(b[1..], s);
      assert (b + s)[1..] == b[1..] + s;
    }
  }

  lemma SkipBlank(b: string)
    requires Blank(b)
    ensures Skip(b) == ""
  {
    SkipOverBlank(b, "");
    assert b + "" == b;
  }

  function UpperChar(c: char): char {
    if 'a' <= c <= 'z' then c - ' ' else c
  }

  function Upper(s: string): (u: string)
    ensures |u| == |s|
  {
    seq(|s|, i requires 0 <= i < |s| => UpperChar(s[i]))
  }

  /** The value of a digit, and 16 for any other character. */
  function Digit(c: char): (d: nat)
    ensures d <= 16
  {
    if '0' <= c <= '9' then (c - '0') as int
    else if 'a' <= c <= 'f' then (c - 'a') as int + 10
    else if 'A' <= c <= 'F' then (c - 'A') as int + 10
    else 16
  }

  /** `isdigit` for base 10 and `isxdigit` for base 16 */
  predicate IsDigit(c: char, base: nat) {
    Digit(c) < base
  }

  predicate AllDigits(s: string, base: nat) {
    forall i | 0 <= i < |s| :: IsDigit(s[i], base)
  }

  /** How many digits `s` starts with. */
  function Run(s: string, base: nat): (n: nat)
    ensures n <= |s| && AllDigits(s[..n], base)
    ensures n == |s| || !IsDigit(s[n], base)
  {
    if s != "" && IsDigit(s[0], base) then 1 + Run(s[1..], base) else 0
  }

  function Number(s: string, base: nat): nat {
    if s == "" then 0 else Number(s[..|s| - 1], base) * base + Digit(s[|s| - 1])
  }

  datatype Scanned = NoNumber | Scanned(value: word)

  /** `sscanf` with `%x` or `%d` into 16 bits: white space, a sign, for `%x` a prefix, then digits. */
  function Scan(s: string, base: nat): Scanned {
    var t := Skip(s);
    var minus, plus := t != "" && t[0] == '-', t != "" && t[0] == '+';
    var u := if minus || plus then t[1..] else t;
    var d := if base == 16 && |u| >= 2 && u[0] == '0' && (u[1] == 'x' || u[1] == 'X') then u[2..] else u;
    var n := Run(d, base);
    if n == 0 then NoNumber
    else
      var v: int := Number(d[..n], base);
      Scanned(Wrap16(if minus then -v else v))
  }

  datatype Value = NoValue | Value(length: nat, value: word)

  /** `get_value`: a number at the start of `s`, and how many characters to step over. */
  function GetValue(s: string): (v: Value)
    ensures v.Value? ==> v.length <= |s|
  {
    if s == "" then NoValue
    else if s[0] == '$' then
      if |s| == 1 then NoValue
      else
        match Scan(s[1..], 16)
        case NoNumber => NoValue
        case Scanned(v) => Value(1 + Run(s[1..], 16), v)
    else
      match Scan(s, 10)
      case NoNumber => NoValue
      case Scanned(v) => Value(Run(s, 10), v)
  }

  /** A value followed by something other than a space or a sign: exactly the digits stepped over, in
      decimal or after a `$`, taken modulo 65536. This is what an accepted operand has. */
  predicate Plain(s: string, v: Value) {
    && v.Value? && v.length <= |s|
    && if s != "" && s[0] == '$'
       then v.length > 1 && AllDigits(s[1..v.length], 16) && v.value == Wrap16(Number(s[1..v.length], 16))
       else v.length > 0 && AllDigits(s[..v.length], 10) && v.value == Wrap16(Number(s[..v.length], 10))
  }

  /** What `sscanf` takes beyond the digits at the start of `d`: a sign, digits after white space, or a
      prefix. */
  lemma ScanShape(d: string, base: nat)
    requires Scan(d, base).Scanned? && base <= 16
    ensures Run(d, base) == 0 ==> Skip(d) != "" && Skip(d)[0] !in {')', ','}
    ensures Run(d, base) > 0 ==>
              || Scan(d, base).value == Wrap16(Number(d[..Run(d, base)], base))
              || (Run(d, base) == 1 && |d| > 1 && d[1] in {'x', 'X'})
  {
    hide Number;
    if Run(d, base) > 0 {
      assert IsDigit(d[0], base);
      assert Skip(d) == d;
      if base == 16 && |d| >= 2 && (d[1] == 'x' || d[1] == 'X') {
        assert Run(d[1..], base) == 0;
      }
    }
  }

  /** After a number that is not plain comes what `sscanf` took but the step did not: never the end, a
      bracket or a comma. */
  lemma OddRest(s: string)
    requires GetValue(s).Value? && !Plain(s, GetValue(s))
    ensures Skip(s[GetValue(s).length..]) != ""
    ensures Skip(s[GetValue(s).length..])[0] !in {')', ','}
  {
    hide Number, Scan, Run, Skip;
    var base := if s[0] == '$' then 16 else 10;
    var d := if s[0] == '$' then s[1..] else s;
    var n := Run(d, base);
    ScanShape(d, base);
    assert s[GetValue(s).length..] == d[n..];
    if n == 0 {
      assert d[0..] == d;
    } else {
      assert s[0] == '$' ==> s[1..1 + n] == d[..n];
      assert d[n..][0] == d[1];
      SkipOverBlank("", d[n..]);
      assert "" + d[n..] == d[n..];
    }
  }

  lemma {:induction false} RunIs(s: string, n: nat, base: nat)
    requires n <= |s| && AllDigits(s[..n], base) && (n == |s| || !IsDigit(s[n], base))
    ensures Run(s, base) == n
  {
    if n > 0 {
      assert s[1..][..n - 1] == s[..n][1..];
      assert IsDigit(s[..n][0], base);
      RunIs(s[1..], n - 1, base);
    }
  }

  lemma ScanHex(d: string, n: nat)
    requires 2 <= n <= |d| && AllDigits(d[..n], 16) && (n == |d| || !IsDigit(d[n], 16))
    ensures Scan(d, 16) == Scanned(Wrap16(Number(d[..n], 16))) && Run(d, 16) == n
  {
    RunIs(d, n, 16);
    assert IsDigit(d[..n][0], 16) && IsDigit(d[..n][1], 16);
    assert Skip(d) == d;
    hide Number, Run, Skip, Wrap16;
  }

  /** Two or more hexadecimal digits after a `$` are read as they stand. */
  lemma HexValue(s: string, n: nat)
    requires 2 <= n < |s| && s[0] == '$' && AllDigits(s[1..n + 1], 16)
    requires n + 1 == |s| || !IsDigit(s[n + 1], 16)
    ensures GetValue(s) == Value(n + 1, Wrap16(Number(s[1..n + 1], 16)))
  {
    hide Number, Run, Skip, Scan, Wrap16, AllDigits, IsDigit;
    assert s[1..][..n] == s[1..n + 1];
    ScanHex(s[1..], n);
  }

  // --- Printed numbers --------------------------------------------------------------

  function HexChar(d: nat): char
    requires d < 16
  {
    if d < 10 then '0' + d as char else 'a' + (d - 10) as char
  }

  /** `%02x` of a byte */
  function Hex2(b: byte): (s: string)
    ensures |s| == 2
  {
    [HexChar(b / 16), HexChar(b % 16)]
  }

  /** `%04x` of a 16-bit number */
  function Hex4(w: word): (s: string)
    ensures |s| == 4
  {
    Hex2(High(w)) + Hex2(Low(w))
  }

  lemma DigitOfHexChar(d: nat)
    requires d < 16
    ensures Digit(UpperChar(HexChar(d))) == d
  {
  }

  lemma NumberOfHex2(h: string, b: byte)
    requires h == Upper(Hex2(b))
    ensures AllDigits(h, 16) && Number(h, 16) == b
  {
    DigitOfHexChar(b / 16);
    DigitOfHexChar(b % 16);
    hide UpperChar, HexChar, Digit;
    assert h[..1][..0] == "";
    assert Number(h[..1], 16) == Number(h[..1][..0], 16) * 16 + Digit(h[0]);
  }

  lemma NumberOfHex4(h: string, w: word)
    requires h == Upper(Hex4(w))
    ensures AllDigits(h, 16) && Number(h, 16) == w
  {
    NumberOfHex2(Upper(Hex2(High(w))), High(w));
    DigitOfHexChar(Low(w) / 16);
    DigitOfHexChar(Low(w) % 16);
    hide UpperChar, HexChar, Digit;
    assert h[..2] == Upper(Hex2(High(w)));
    assert h[..3][..2] == h[..2];
    assert Number(h[..3], 16) == Number(h[..2], 16) * 16 + Digit(h[2]);
  }
}
