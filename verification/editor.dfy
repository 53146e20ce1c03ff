/** The line editor of the prompt, without its drawing. */
module LineEditor {
  import opened Bits

  const NONE := 0x00
  const BACKSPACE := 0x08
  const RETURN := 0x0a
  const RIGHT := 0x10
  const LEFT := 0x11

  /** The text of the line and where the cursor is in it. */
  datatype Line = Line(text: seq<byte>, pos: nat)

  /** The line fits in a buffer of `size` bytes with its terminator. */
  predicate Fits(l: Line, size: nat) {
    l.pos <= |l.text| < size
  }

  predicate IsCharacter(key: byte) {
    key != NONE && key != BACKSPACE && key != RETURN && key != RIGHT && key != LEFT
  }

  /** One key. In the middle of the line the cursor stays where the new character is; at the end it goes past it. */
  function Edited(l: Line, key: byte, size: nat): (r: Line)
    requires Fits(l, size)
    ensures Fits(r, size)
  {
    if key == LEFT then (if l.pos > 0 then l.(pos := l.pos - 1) else l)
    else if key == RIGHT then (if l.pos < |l.text| then l.(pos := l.pos + 1) else l)
    else if key == BACKSPACE then
      if l.pos > 0 then Line(l.text[..l.pos - 1] + l.text[l.pos..], l.pos - 1) else l
    else if key == NONE || key == RETURN || |l.text| + 1 == size then l
    else Line(l.text[..l.pos] + [key] + l.text[l.pos..], if l.pos == |l.text| then l.pos + 1 else l.pos)
  }

  function EditedAll(keys: seq<byte>, size: nat): (l: Line)
    requires size >= 1
    ensures Fits(l, size)
  {
    if keys == [] then Line([], 0) else Edited(EditedAll(keys[..|keys| - 1], size), keys[|keys| - 1], size)
  }

  // --- What editing means -----------------------------------------------------------

  /** Characters and nothing else: the line is the text, cut where the buffer is full. */
  lemma {:induction false} TypingGivesText(keys: seq<byte>, size: nat)
    requires size >= 1 && forall k | k in keys :: IsCharacter(k)
    ensures var kept := if |keys| < size then keys else keys[..size - 1];
            EditedAll(keys, size) == Line(kept, |kept|)
  {
    if keys != [] {
      var n := |keys| - 1;
      var head := keys[..n];
      TypingGivesText(head, size);
      assert IsCharacter(keys[n]);
      if n + 1 < size {
        assert head[..n] + [keys[n]] + head[n..] == keys;
      } else {
        assert (if n < size then head else head[..size - 1]) == keys[..size - 1];
      }
    }
  }

  /** `n` times the same key. */
  function Presses(l: Line, key: byte, size: nat, n: nat): (r: Line)
    requires Fits(l, size)
    ensures Fits(r, size)
  {
    if n == 0 then l else Edited(Presses(l, key, size, n - 1), key, size)
  }

  /** Left and right go one place at a time and stop at the ends. */
  lemma {:induction false} CursorMoves(l: Line, size: nat, n: nat)
    requires Fits(l, size)
    ensures Presses(l, 0x11, size, n) == Line(l.text, if n <= l.pos then l.pos - n else 0)
    ensures Presses(l, 0x10, size, n) == Line(l.text, if l.pos + n <= |l.text| then l.pos + n else |l.text|)
  {
    if n > 0 {
      CursorMoves(l, size, n - 1);
    }
  }

  /** A character goes in before what the cursor is on, and the cursor stays on it; at the end it goes past it. A full
      line takes none. */
  lemma TypedInside(a: seq<byte>, b: seq<byte>, key: byte, size: nat)
    requires key !in {0x00, 0x08, 0x0a, 0x10, 0x11} && |a + b| < size
    ensures Edited(Line(a + b, |a|), key, size)
         == if |a + b| + 1 == size then Line(a + b, |a|)
            else Line(a + [key] + b, if b == [] then |a| + 1 else |a|)
  {
    assert (a + b)[..|a|] == a && (a + b)[|a|..] == b;
  }

  /** Backspace removes the character before the cursor and no other, and nothing at the start. */
  lemma BackspaceInside(a: seq<byte>, c: byte, b: seq<byte>, size: nat)
    requires |a + [c] + b| < size
    ensures Edited(Line(a + [c] + b, |a| + 1), 0x08, size) == Line(a + b, |a|)
    ensures Edited(Line(a + b, 0), 0x08, size) == Line(a + b, 0)
  {
    assert (a + [c] + b)[..|a|] == a && (a + [c] + b)[|a| + 1..] == b;
  }

  /** Keys typed after the start of a line. */
  lemma {:induction false} TypedAfter(keys: seq<byte>, more: seq<byte>, size: nat)
    requires size >= 1
    ensures EditedAll(keys + more, size) == EditedFrom(EditedAll(keys, size), more, size)
    decreases |more|
  {
    if more == [] {
      assert keys + more == keys;
    } else {
      assert (keys + more)[..|keys + more| - 1] == keys + more[..|more| - 1];
      TypedAfter(keys, more[..|more| - 1], size);
    }
  }

  function EditedFrom(l: Line, keys: seq<byte>, size: nat): (r: Line)
    requires Fits(l, size)
    ensures Fits(r, size)
  {
    if keys == [] then l else Edited(EditedFrom(l, keys[..|keys| - 1], size), keys[|keys| - 1], size)
  }

  lemma {:induction false} RepeatedKey(l: Line, key: byte, size: nat, n: nat)
    requires Fits(l, size)
    ensures EditedFrom(l, seq(n, _ => key), size) == Presses(l, key, size, n)
  {
    hide Edited;
    if n > 0 {
      var keys := seq(n, _ => key);
      assert keys[..n - 1] == seq(n - 1, _ => key) && keys[n - 1] == key;
      RepeatedKey(l, key, size, n - 1);
    }
  }

  /** Typing `a` and `b`, going back to before `b`, and typing `c` gives `a`, `c`, `b`. */
  lemma TypingInside(a: seq<byte>, b: seq<byte>, c: byte, size: nat)
    requires forall k | k in a + b + [c] :: k !in {0x00, 0x08, 0x0a, 0x10, 0x11}
    requires |a + b| + 1 < size
    ensures EditedAll(a + b + seq(|b|, _ => 0x11) + [c], size).text == a + [c] + b
  {
    hide Edited;
    var back := seq(|b|, _ => 0x11);
    forall k | k in a + b
      ensures IsCharacter(k)
    {
      assert k in a + b + [c];
    }
    TypingGivesText(a + b, size);
    TypedAfter(a + b, back, size);
    RepeatedKey(Line(a + b, |a + b|), 0x11, size, |b|);
    CursorMoves(Line(a + b, |a + b|), size, |b|);
    assert (a + b + back + [c])[..|a + b + back|] == a + b + back;
    assert c in a + b + [c];
    TypedInside(a, b, c, size);
  }

  /** Backspace takes back a character typed at the end; in the middle it takes a step to the right first. */
  lemma BackspaceUndoes(l: Line, key: byte, size: nat)
    requires Fits(l, size) && IsCharacter(key) && |l.text| + 1 < size
    ensures l.pos == |l.text| ==> Edited(Edited(l, key, size), BACKSPACE, size) == l
    ensures l.pos < |l.text| ==> Edited(Edited(Edited(l, key, size), RIGHT, size), BACKSPACE, size) == l
  {
    var typed := Edited(l, key, size);
    assert typed.text[l.pos + 1..] == l.text[l.pos..] && typed.text[..l.pos] == l.text[..l.pos];
    assert l.text[..l.pos] + l.text[l.pos..] == l.text;
  }

  /** The cursor keys do not change the text, and undo each other away from the ends. */
  lemma CursorKeys(l: Line, size: nat)
    requires Fits(l, size)
    ensures Edited(l, LEFT, size).text == l.text && Edited(l, RIGHT, size).text == l.text
    ensures l.pos > 0 ==> Edited(Edited(l, LEFT, size), RIGHT, size) == l
    ensures l.pos < |l.text| ==> Edited(Edited(l, RIGHT, size), LEFT, size) == l
  {
  }

  // --- The editor in place ----------------------------------------------------------

  /** The start of the buffer is the text. */
  ghost predicate Holds(buffer: array<byte>, l: Line, pos: nat, end: nat)
    reads buffer
  {
    end < buffer.Length && end == |l.text| && pos == l.pos && buffer[..end] == l.text
  }

  /** The loop of backspace: the rest of the text moves one place down. */
  method RemoveAt(buffer: array<byte>, pos: nat, end: nat)
    requires pos < end < buffer.Length
    modifies buffer
    ensures buffer[..end - 1] == old(buffer[..pos]) + old(buffer[pos + 1..end])
    ensures buffer[end - 1..] == old(buffer[end - 1..])
  {
    var k := pos;
    while k < end
      invariant pos <= k <= end
      invariant forall i | 0 <= i < buffer.Length ::
        buffer[i] == if pos <= i < k && i < end - 1 then old(buffer[i + 1]) else old(buffer[i])
    {
      if k < end - 1 {
        buffer[k] := buffer[k + 1];
      }
      k := k + 1;
    }
  }

  /** The loop of insertion: the rest of the text moves one place up. */
  method InsertAt(buffer: array<byte>, pos: nat, end: nat, d: byte)
    requires pos < end - 1 < buffer.Length
    modifies buffer
    ensures buffer[..end] == old(buffer[..pos]) + [d] + old(buffer[pos..end - 1])
    ensures buffer[end..] == old(buffer[end..])
  {
    var k := end - 1;
    while k != pos
      invariant pos <= k <= end - 1
      invariant forall i | 0 <= i < buffer.Length ::
        buffer[i] == if k < i < end then old(buffer[i - 1]) else old(buffer[i])
      decreases k
    {
      buffer[k] := buffer[k - 1];
      k := k - 1;
    }
    buffer[pos] := d;
  }

  /** One turn of the loop of `buffered_input`, for a key that does not end the line. */
  method HandleKey(buffer: array<byte>, size: byte, d: byte, pos0: nat, end0: nat, ghost l: Line)
    returns (pos: nat, end: nat)
    requires 1 <= size <= buffer.Length && d != RETURN && Fits(l, size) && Holds(buffer, l, pos0, end0)
    modifies buffer
    ensures Holds(buffer, Edited(l, d, size), pos, end) && buffer[size..] == old(buffer[size..])
  {
    pos, end := pos0, end0;
    assert buffer[..pos0] == l.text[..pos0] && buffer[pos0..end0] == l.text[pos0..];
    if d == LEFT {
      if pos > 0 {
        pos := pos - 1;
      }
    } else if d == RIGHT {
      if pos < end {
        pos := pos + 1;
      }
    } else if d == BACKSPACE {
      if pos > 0 {
        pos := pos - 1;
        assert buffer[..pos] == l.text[..pos];
        RemoveAt(buffer, pos, end);
        end := end - 1;
        assert buffer[size..] == buffer[end..][size - end..] == old(buffer[end0 - 1..])[size - end..];
      }
    } else if d != NONE {
      if end + 1 == size {
        return;
      }
      if pos == end {
        buffer[pos] := d;
        pos := pos + 1;
        end := pos;
      } else {
        end := end + 1;
        InsertAt(buffer, pos, end, d);
        assert buffer[size..] == buffer[end..][size - end..] == old(buffer[end0 + 1..])[size - end..];
      }
    }
  }

  /** `buffered_input`, fed with the keys of `keys` and then none: whether the line was ended, how long it is, and
      how many keys were taken. */
  method BufferedInput(buffer: array<byte>, size: byte, keys: seq<byte>)
    returns (done: bool, end: nat, taken: nat)
    requires 1 <= size <= buffer.Length
    modifies buffer
    ensures done <==> RETURN in keys
    ensures done ==> taken < |keys| && keys[taken] == RETURN && RETURN !in keys[..taken]
    ensures !done ==> taken == |keys|
    ensures end < size && (done ==> buffer[end] == 0)
    ensures buffer[..end] == EditedAll(keys[..taken], size).text
    ensures buffer[size..] == old(buffer[size..])
  {
    hide Edited;
    var pos := 0;
    end, taken := 0, 0;
    while taken < |keys|
      invariant taken <= |keys| && RETURN !in keys[..taken] && end < size
      invariant Holds(buffer, EditedAll(keys[..taken], size), pos, end)
      invariant buffer[size..] == old(buffer[size..])
    {
      var d := keys[taken];
      if d == RETURN {
        buffer[end] := 0;
        return true, end, taken;
      }
      assert keys[..taken + 1][..taken] == keys[..taken];
      pos, end := HandleKey(buffer, size, d, pos, end, EditedAll(keys[..taken], size));
      taken := taken + 1;
    }
    return false, end, taken;
  }
}
