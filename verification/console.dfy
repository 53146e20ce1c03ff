/** The text screen: a grid of characters and what the cursor does on it. */
module Terminal {
  import opened Bits

  const WIDTH := 32
  const HEIGHT := 24

  /** A row that has scrolled in holds zeros, whatever the font's space looks like. */
  datatype Cell = Glyph(c: byte) | Empty

  type grid = g: seq<seq<Cell>> | |g| == HEIGHT && forall y | 0 <= y < HEIGHT :: |g[y]| == WIDTH
    witness seq(24, _ => seq(32, _ => Empty))

  /** The column is 32 only in the middle of a step. */
  datatype Screen = Screen(cells: grid, x: nat, y: nat)

  predicate OnScreen(t: Screen) {
    t.x < WIDTH && t.y < HEIGHT
  }

  function Filled(c: byte): grid {
    seq(HEIGHT, _ => seq(WIDTH, _ => Glyph(c)))
  }

  function EmptyRow(): seq<Cell> {
    seq(WIDTH, _ => Empty)
  }

  function Scrolled(g: grid): grid {
    g[1..] + [EmptyRow()]
  }

  function Placed(g: grid, x: nat, y: nat, c: byte): grid
    requires x < WIDTH && y < HEIGHT
  {
    g[y := g[y][x := Glyph(c)]]
  }

  /** To the start of the next line, which scrolls at the bottom. */
  function NewLine(t: Screen): (r: Screen)
    requires t.y < HEIGHT
    ensures OnScreen(r)
  {
    if t.y + 1 > 23 then Screen(Scrolled(t.cells), 0, t.y) else Screen(t.cells, 0, t.y + 1)
  }

  /** `put_char` on the grid */
  function Typed(t: Screen, c: byte): (r: Screen)
    requires OnScreen(t)
    ensures OnScreen(r)
  {
    var moved :=
      if c == 0x0a then NewLine(t)
      else if c == 0x09 then t.(x := (t.x / 8 + 1) * 8)
      else Screen(Placed(t.cells, t.x, t.y, c), t.x + 1, t.y);
    if moved.x > 31 then NewLine(moved) else moved
  }

  function TypedAll(t: Screen, text: seq<byte>): (r: Screen)
    requires OnScreen(t)
    ensures OnScreen(r)
  {
    if text == [] then t else Typed(TypedAll(t, text[..|text| - 1]), text[|text| - 1])
  }

  /** A tab goes to the next column that is a multiple of 8, over the edge to the next line; a new line keeps all
      rows, but for the top one at the bottom of the screen, which makes room for an empty one. */
  lemma ControlCharacters(t: Screen)
    requires OnScreen(t)
    ensures var r := Typed(t, 0x09);
            && r.x % 8 == 0
            && (t.x < 24 ==> t.x < r.x <= t.x + 8 && r.y == t.y && r.cells == t.cells)
            && (t.x >= 24 ==> r == Typed(t, 0x0a))
    ensures var r := Typed(t, 0x0a);
            && r.x == 0 && (t.y < 23 ==> r.y == t.y + 1 && r.cells == t.cells)
            && (t.y == 23 ==> r.y == 23 && r.cells[23] == EmptyRow()
                              && forall y | 0 <= y < 23 :: r.cells[y] == t.cells[y + 1])
  {
  }

  // --- What plain text looks like ---------------------------------------------------

  predicate PlainText(text: seq<byte>) {
    0x0a !in text && 0x09 !in text
  }

  /** How many rows have scrolled out after `n` plain characters. */
  function Gone(n: nat): nat {
    if n / WIDTH > 23 then n / WIDTH - 23 else 0
  }

  /** The cell shows the character of the text that falls on it, or what was there before it. */
  function Expected(text: seq<byte>, fill: byte, x: nat, y: nat): Cell {
    var row := y + Gone(|text|);
    if row * WIDTH + x < |text| then Glyph(text[row * WIDTH + x])
    else if row < HEIGHT then Glyph(fill)
    else Empty
  }

  predicate Looks(t: Screen, text: seq<byte>, fill: byte) {
    && t.x == |text| % WIDTH && t.y == |text| / WIDTH - Gone(|text|)
    && forall y, x | 0 <= y < HEIGHT && 0 <= x < WIDTH :: t.cells[y][x] == Expected(text, fill, x, y)
  }

  lemma RowAndColumn(n: nat, row: nat, x: nat)
    requires x < WIDTH
    ensures row * WIDTH + x == n <==> row == n / WIDTH && x == n % WIDTH
    ensures row * WIDTH + x < n <==> row < n / WIDTH || (row == n / WIDTH && x < n % WIDTH)
  {
  }

  lemma NextPosition(n: nat)
    ensures n % WIDTH == 31 ==> (n + 1) / WIDTH == n / WIDTH + 1 && (n + 1) % WIDTH == 0
    ensures n % WIDTH < 31 ==> (n + 1) / WIDTH == n / WIDTH && (n + 1) % WIDTH == n % WIDTH + 1
  {
  }

  lemma TypedLooks(t: Screen, text: seq<byte>, fill: byte, c: byte)
    requires OnScreen(t) && Looks(t, text, fill) && c != 0x0a && c != 0x09
    ensures Looks(Typed(t, c), text + [c], fill)
  {
    var n := |text|;
    var r := Typed(t, c);
    NextPosition(n);
    forall y, x | 0 <= y < HEIGHT && 0 <= x < WIDTH
      ensures r.cells[y][x] == Expected(text + [c], fill, x, y)
    {
      RowAndColumn(n, y + Gone(n + 1), x);
      RowAndColumn(n + 1, y + Gone(n + 1), x);
      if y + 1 < HEIGHT {
        assert t.cells[y + 1][x] == Expected(text, fill, x, y + 1);
      }
      assert t.cells[y][x] == Expected(text, fill, x, y);
    }
  }

  /** After clearing the screen, plain text of any length fills the rows one after the other, and the screen shows
      the end of it. */
  lemma {:induction false} PlainTextLooks(text: seq<byte>, fill: byte)
    requires PlainText(text)
    ensures Looks(TypedAll(Screen(Filled(fill), 0, 0), text), text, fill)
  {
    hide Looks, Typed;
    if text == [] {
      EmptyLooks(fill);
    } else {
      var head := text[..|text| - 1];
      PlainTextLooks(head, fill);
      TypedLooks(TypedAll(Screen(Filled(fill), 0, 0), head), head, fill, text[|text| - 1]);
      assert head + [text[|text| - 1]] == text;
    }
  }

  lemma EmptyLooks(fill: byte)
    ensures Looks(Screen(Filled(fill), 0, 0), [], fill)
  {
  }
}

/** The bitmap that shows the grid, in external memory. */
module FrameBuffer {
  import opened Bits
  import Machine
  import SplitMemory
  import opened Terminal

  const VIDEO_ADDR := 0x0200
  const SIZE := Machine.SIZE

  /** The glyph of character `c` is the eight bytes at `8 * c`. */
  type font = f: seq<byte> | |f| == 2048 witness seq(2048, _ => 0)

  /** The address of line `line` of the glyph in column `x` of row `y`. */
  function At(x: nat, y: nat, line: nat): nat {
    VIDEO_ADDR + 256 * y + 32 * line + x
  }

  function LineOf(f: font, cell: Cell, line: nat): byte
    requires line < 8
  {
    match cell
    case Glyph(c) => f[8 * c + line]
    case Empty => 0
  }

  /** The frame buffer is the rendering of the grid. */
  ghost predicate Shows(m: seq<byte>, f: font, g: grid)
    requires |m| == SIZE
  {
    forall y, line, x | 0 <= y < HEIGHT && 0 <= line < 8 && 0 <= x < WIDTH ::
      m[At(x, y, line)] == LineOf(f, g[y][x], line)
  }

  predicate InFrame(k: int) {
    0x0200 <= k <= 0x19ff
  }

  /** Only the frame buffer has changed. */
  ghost predicate SameOutside(m: seq<byte>, was: seq<byte>) {
    |m| == |was| == SIZE && forall k | 0 <= k < SIZE && !InFrame(k) :: m[k] == was[k]
  }

  /** The bytes below 0x0200 and from 0x1a00 on. */
  lemma OutsideIsSame(m: seq<byte>, was: seq<byte>)
    requires SameOutside(m, was)
    ensures m[..0x0200] == was[..0x0200] && m[0x1a00..] == was[0x1a00..]
  {
  }

  /** The addresses of the lines are those of the frame buffer, and different lines are at different ones, so
      `Shows` says what each of its 6144 bytes is. */
  lemma FrameIsLines(k: int)
    ensures InFrame(k)
       <==> exists x, y, line :: 0 <= x < WIDTH && 0 <= y < HEIGHT && 0 <= line < 8 && k == At(x, y, line)
  {
    if InFrame(k) {
      var d := k - VIDEO_ADDR;
      LineAt(d);
      assert k == At(d % 32, d / 256, d / 32 % 8);
    }
  }

  lemma LineAt(d: nat)
    requires d < 6144
    ensures d / 256 < 24 && d == 256 * (d / 256) + 32 * (d / 32 % 8) + d % 32
  {
    assert d / 256 == d / 32 / 8;
  }

  lemma LinesApart(x: nat, y: nat, line: nat, x1: nat, y1: nat, line1: nat)
    requires x < WIDTH && line < 8 && x1 < WIDTH && line1 < 8
    ensures At(x, y, line) == At(x1, y1, line1) <==> x == x1 && y == y1 && line == line1
  {
    if y < y1 {
      assert At(x, y, line) < VIDEO_ADDR + 256 * y1;
    } else if y > y1 {
      assert At(x1, y1, line1) < VIDEO_ADDR + 256 * y;
    } else if line < line1 {
      assert At(x, y, line) < VIDEO_ADDR + 256 * y + 32 * line1;
    } else if line > line1 {
      assert At(x1, y1, line1) < VIDEO_ADDR + 256 * y + 32 * line;
    }
  }

  /** The pixels of a cell, eight to a byte: line `line` of the character in column `x` of row `y` is the byte `x` of
      line `8 * y + line` of a bitmap of 32 bytes a line at 0x0200, and it is the byte of the font at 8 times the
      character plus the line; where nothing has been drawn since scrolling it is 0. */
  lemma Pixels(m: seq<byte>, f: font, g: grid, x: nat, y: nat, line: nat)
    requires |m| == SIZE && Shows(m, f, g) && x < 32 && y < 24 && line < 8
    ensures m[0x0200 + 32 * (8 * y + line) + x]
         == match g[y][x]
            case Glyph(c) => f[8 * c + line]
            case Empty => 0
  {
    assert At(x, y, line) == 0x0200 + 32 * (8 * y + line) + x;
    hide At;
  }

  /** The frame buffer while the first `lines` lines of a glyph are in it. */
  ghost predicate Partly(m: seq<byte>, f: font, g: grid, x: nat, y: nat, c: byte, lines: nat)
    requires |m| == SIZE
  {
    forall y1, line, x1 | 0 <= y1 < HEIGHT && 0 <= line < 8 && 0 <= x1 < WIDTH ::
      m[At(x1, y1, line)] == if x1 == x && y1 == y && line < lines then f[8 * c + line] else LineOf(f, g[y1][x1], line)
  }

  lemma OneMoreLine(m: seq<byte>, f: font, g: grid, x: nat, y: nat, c: byte, lines: nat)
    requires |m| == SIZE && x < WIDTH && y < HEIGHT && lines < 8 && Partly(m, f, g, x, y, c, lines)
    ensures Partly(m[At(x, y, lines) := f[8 * c + lines]], f, g, x, y, c, lines + 1)
  {
    forall y1, line, x1 | 0 <= y1 < HEIGHT && 0 <= line < 8 && 0 <= x1 < WIDTH
      ensures m[At(x, y, lines) := f[8 * c + lines]][At(x1, y1, line)]
           == if x1 == x && y1 == y && line < lines + 1 then f[8 * c + line] else LineOf(f, g[y1][x1], line)
    {
      hide LineOf;
      LinesApart(x, y, lines, x1, y1, line);
      hide At;
    }
  }

  class Console {
    const sram: array<byte>
    const f: font
    var x: nat
    var y: nat

    ghost predicate Valid()
      reads this
    {
      sram.Length == SIZE && x < WIDTH && y < HEIGHT
    }

    /** The screen shows a grid, with the cursor of the console. */
    ghost predicate IsAt(t: Screen)
      requires sram.Length == SIZE
      reads this, sram
    {
      Shows(sram[..], f, t.cells) && x == t.x && y == t.y
    }

    constructor (sram: array<byte>, f: font)
      requires sram.Length == SIZE
      ensures Valid() && this.sram == sram && this.f == f && x == 0 && y == 0
    {
      this.sram, this.f := sram, f;
      x, y := 0, 0;
    }

    /** `video_cls`, and the cursor goes home */
    method Cls(c: byte)
      requires Valid()
      modifies this`x, this`y, sram
      ensures Valid() && IsAt(Screen(Filled(c), 0, 0)) && SameOutside(sram[..], old(sram[..]))
    {
      var row := 0;
      while row < HEIGHT
        invariant row <= HEIGHT && SameOutside(sram[..], old(sram[..]))
        invariant forall y1, line1, x1 | 0 <= y1 < row && 0 <= line1 < 8 && 0 <= x1 < WIDTH ::
          sram[At(x1, y1, line1)] == f[8 * c + line1]
      {
        var line := 0;
        while line < 8
          invariant line <= 8 && SameOutside(sram[..], old(sram[..]))
          invariant forall y1, line1, x1 | 0 <= y1 < row && 0 <= line1 < 8 && 0 <= x1 < WIDTH ::
            sram[At(x1, y1, line1)] == f[8 * c + line1]
          invariant forall line1, x1 | 0 <= line1 < line && 0 <= x1 < WIDTH ::
            sram[At(x1, row, line1)] == f[8 * c + line1]
        {
          SramSet(VIDEO_ADDR + row * WIDTH * 8 + line * WIDTH, f[line + c * 8], WIDTH);
          line := line + 1;
        }
        row := row + 1;
      }
      x, y := 0, 0;
    }

    /** `sram_set` */
    method SramSet(addr: nat, c: byte, times: nat)
      requires sram.Length == SIZE && addr + times <= SIZE
      modifies sram
      ensures forall k | 0 <= k < SIZE :: sram[k] == if addr <= k < addr + times then c else old(sram[k])
    {
      var i := 0;
      while i < times
        invariant i <= times
        invariant forall k | 0 <= k < SIZE :: sram[k] == if addr <= k < addr + i then c else old(sram[k])
      {
        sram[addr + i] := c;
        i := i + 1;
      }
    }

    /** `video_put_char` */
    method PutGlyph(column: nat, row: nat, c: byte, ghost g: grid)
      requires sram.Length == SIZE && column < WIDTH && row < HEIGHT && Shows(sram[..], f, g)
      modifies sram
      ensures Shows(sram[..], f, Placed(g, column, row, c)) && SameOutside(sram[..], old(sram[..]))
    {
      hide LineOf, Partly, Shows;
      var addr, line := VIDEO_ADDR + (column + row * WIDTH * 8), 0;
      NothingDrawn(sram[..], f, g, column, row, c);
      while line < 8
        invariant line <= 8 && addr == At(column, row, line)
        invariant SameOutside(sram[..], old(sram[..])) && Partly(sram[..], f, g, column, row, c, line)
      {
        OneMoreLine(sram[..], f, g, column, row, c, line);
        ghost var before := sram[..];
        sram[addr] := f[line + 8 * c];
        assert sram[..] == before[At(column, row, line) := f[8 * c + line]];
        addr := addr + WIDTH;
        line := line + 1;
      }
      AllDrawn(sram[..], f, g, column, row, c);
    }

    /** A block of 64 bytes by way of a buffer */
    method CopyBlock(src: word, dst: word, b: array<byte>)
      requires sram.Length == SIZE && b.Length == 64 && b != sram && src + 64 <= SIZE && dst + 64 <= SIZE
      modifies sram, b
      ensures forall k | dst <= k < dst + 64 :: sram[k] == old(sram[k - dst + src])
      ensures forall k | 0 <= k < SIZE && !(dst <= k < dst + 64) :: sram[k] == old(sram[k])
    {
      hide Machine.Take, Machine.Put;
      ghost var was := sram[..];
      SplitMemory.SramRead(sram, src, b, 0, 64);
      SplitMemory.TakeIsSlice(was, src, 64);
      ghost var block := b[0..64];
      assert block == was[src..src + 64];
      SplitMemory.SramWrite(sram, dst, b, 0, 64);
      SplitMemory.PutIsSplice(was, dst, block);
      BlockIn(sram[..], was, src, dst);
      assert forall k | 0 <= k < SIZE :: sram[k] == sram[..][k];
    }

    /** `scroll_up`: 23 rows, in blocks of 64 bytes, and zeros in the last */
    method ScrollUp(ghost g: grid)
      requires sram.Length == SIZE && Shows(sram[..], f, g)
      modifies sram
      ensures Shows(sram[..], f, Scrolled(g)) && SameOutside(sram[..], old(sram[..]))
    {
      hide Shows, Moved;
      var b := new byte[64];
      NothingMoved(sram[..]);
      var i, src, dst := 0, VIDEO_ADDR + WIDTH * 8, VIDEO_ADDR;
      while i < HEIGHT - 1
        invariant i <= HEIGHT - 1 && dst == VIDEO_ADDR + 256 * i <= SIZE - 512 && src == dst + 256
        invariant Moved(sram[..], old(sram[..]), dst)
      {
        var j := 0;
        while j < 4
          invariant j <= 4 && Moved(sram[..], old(sram[..]), dst + 64 * j)
        {
          ghost var before := sram[..];
          CopyBlock(src + j * (WIDTH * 2), dst + j * (WIDTH * 2), b);
          BlockMoved(sram[..], before, old(sram[..]), dst + 64 * j);
          j := j + 1;
        }
        src := src + WIDTH * 8;
        dst := dst + WIDTH * 8;
        i := i + 1;
      }
      hide Cleared;
      NothingCleared(sram[..], old(sram[..]));
      var j := 0;
      while j < 4
        invariant j <= 4 && Cleared(sram[..], old(sram[..]), 64 * j)
      {
        ghost var before := sram[..];
        SramSet(dst + j * (WIDTH * 2), 0, WIDTH * 2);
        BlockCleared(sram[..], before, old(sram[..]), 64 * j);
        j := j + 1;
      }
      ScrollShows(sram[..], old(sram[..]), f, g);
    }

    /** To the start of the next line, as at each of the places where the cursor leaves the bottom. */
    method NextLine(ghost t: Screen)
      requires sram.Length == SIZE && IsAt(t) && t.y < HEIGHT
      modifies this`x, this`y, sram
      ensures Valid() && IsAt(NewLine(t)) && SameOutside(sram[..], old(sram[..]))
    {
      hide Shows, Scrolled;
      x := 0;
      y := y + 1;
      if y > 23 {
        ScrollUp(t.cells);
        y := y - 1;
      }
    }

    /** `put_char` */
    method PutChar(c: byte, ghost t: Screen)
      requires Valid() && IsAt(t)
      modifies this`x, this`y, sram
      ensures Valid() && IsAt(Typed(t, c)) && SameOutside(sram[..], old(sram[..]))
    {
      hide Shows, NewLine, Placed;
      ghost var moved: Screen;
      if c == 0x0a {
        NextLine(t);
        moved := NewLine(t);
      } else if c == 0x09 {
        x := (x / 8 + 1) * 8;
        moved := t.(x := (t.x / 8 + 1) * 8);
      } else {
        PutGlyph(x, y, c, t.cells);
        x := x + 1;
        moved := Screen(Placed(t.cells, t.x, t.y, c), t.x + 1, t.y);
      }
      ghost var before := sram[..];
      if x > 31 {
        NextLine(moved);
      }
    }

    /** The loop of `put_string`: after any text the frame buffer shows the grid of the abstract screen, the cursor is
        on it, and no other byte of memory has changed. */
    method PutString(text: seq<byte>, ghost t: Screen)
      requires Valid() && IsAt(t)
      modifies this`x, this`y, sram
      ensures Valid() && IsAt(TypedAll(t, text)) && SameOutside(sram[..], old(sram[..]))
    {
      hide Shows, Typed;
      var i := 0;
      assert text[..0] == [];
      while i < |text|
        invariant i <= |text| && Valid() && IsAt(TypedAll(t, text[..i])) && SameOutside(sram[..], old(sram[..]))
      {
        assert text[..i + 1][..i] == text[..i];
        PutChar(text[i], TypedAll(t, text[..i]));
        i := i + 1;
      }
      assert text[..|text|] == text;
    }
  }

  lemma BlockIn(m: seq<byte>, was: seq<byte>, src: nat, dst: nat)
    requires |was| == SIZE && src + 64 <= SIZE && dst + 64 <= SIZE
    requires m == was[..dst] + was[src..src + 64] + was[dst + 64..]
    ensures forall k | dst <= k < dst + 64 :: m[k] == was[k - dst + src]
    ensures forall k | 0 <= k < SIZE && !(dst <= k < dst + 64) :: m[k] == was[k]
  {
  }

  /** The frame buffer has moved up by one row, as far as `end`. */
  ghost predicate Moved(m: seq<byte>, was: seq<byte>, end: nat)
    requires |m| == |was| == SIZE && VIDEO_ADDR <= end <= SIZE - 256
  {
    && (forall k | VIDEO_ADDR <= k < end :: m[k] == was[k + 256])
    && (forall k | 0 <= k < SIZE && !(VIDEO_ADDR <= k < end) :: m[k] == was[k])
  }

  lemma NothingMoved(m: seq<byte>)
    requires |m| == SIZE
    ensures Moved(m, m, VIDEO_ADDR)
  {
  }

  lemma BlockMoved(m: seq<byte>, before: seq<byte>, was: seq<byte>, end: nat)
    requires |m| == |before| == |was| == SIZE && VIDEO_ADDR <= end <= SIZE - 320 && Moved(before, was, end)
    requires forall k | end <= k < end + 64 :: m[k] == before[k + 256]
    requires forall k | 0 <= k < SIZE && !(end <= k < end + 64) :: m[k] == before[k]
    ensures Moved(m, was, end + 64)
  {
    forall k | VIDEO_ADDR <= k < end + 64
      ensures m[k] == was[k + 256]
    {
      if k >= end {
        assert m[k] == before[k + 256] == was[k + 256];
      } else {
        assert m[k] == before[k] == was[k + 256];
      }
    }
    forall k | 0 <= k < SIZE && !(VIDEO_ADDR <= k < end + 64)
      ensures m[k] == was[k]
    {
      assert m[k] == before[k] == was[k];
    }
  }

  /** All rows but the last have moved up, and the last holds `n` zeros so far. */
  ghost predicate Cleared(m: seq<byte>, was: seq<byte>, n: nat)
    requires |m| == |was| == SIZE && n <= 256
  {
    && (forall k | VIDEO_ADDR <= k < 0x1900 :: m[k] == was[k + 256])
    && (forall k | 0x1900 <= k < 0x1900 + n :: m[k] == 0)
    && (forall k | 0 <= k < SIZE && !InFrame(k) :: m[k] == was[k])
  }

  lemma NothingCleared(m: seq<byte>, was: seq<byte>)
    requires |m| == |was| == SIZE && Moved(m, was, 0x1900)
    ensures Cleared(m, was, 0)
  {
  }

  lemma BlockCleared(m: seq<byte>, before: seq<byte>, was: seq<byte>, n: nat)
    requires |m| == |before| == |was| == SIZE && n <= 192 && Cleared(before, was, n)
    requires forall k | 0 <= k < SIZE :: m[k] == if 0x1900 + n <= k < 0x1900 + n + 64 then 0 else before[k]
    ensures Cleared(m, was, n + 64)
  {
    forall k | 0x1900 <= k < 0x1900 + n + 64
      ensures m[k] == 0
    {
      if k < 0x1900 + n {
        assert m[k] == before[k] == 0;
      }
    }
  }

  lemma ScrollShows(m: seq<byte>, was: seq<byte>, f: font, g: grid)
    requires |m| == |was| == SIZE && Shows(was, f, g)
    requires Cleared(m, was, 256)
    ensures Shows(m, f, Scrolled(g)) && SameOutside(m, was)
  {
    forall y, line, x | 0 <= y < HEIGHT && 0 <= line < 8 && 0 <= x < WIDTH
      ensures m[At(x, y, line)] == LineOf(f, Scrolled(g)[y][x], line)
    {
      if y < 23 {
        assert At(x, y, line) + 256 == At(x, y + 1, line);
        assert was[At(x, y + 1, line)] == LineOf(f, g[y + 1][x], line);
      }
    }
  }

  lemma NothingDrawn(m: seq<byte>, f: font, g: grid, x: nat, y: nat, c: byte)
    requires |m| == SIZE && Shows(m, f, g)
    ensures Partly(m, f, g, x, y, c, 0)
  {
  }

  lemma AllDrawn(m: seq<byte>, f: font, g: grid, x: nat, y: nat, c: byte)
    requires |m| == SIZE && x < WIDTH && y < HEIGHT && Partly(m, f, g, x, y, c, 8)
    ensures Shows(m, f, Placed(g, x, y, c))
  {
  }
}
