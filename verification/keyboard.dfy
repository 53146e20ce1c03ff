/** The keyboard: a ring of scan codes, and a loop that turns them into characters. */
module Keyboard {
  import opened Bits
  import opened Rings

  const RELEASE := 0xf0
  const LEFT_SHIFT := 0x12
  const RIGHT_SHIFT := 0x59
  const MAX_SCANCODE := 0x76
  const BUFFER_SIZE := 16

  /** Two characters for every scan code, the second with shift. */
  type keymap = m: seq<(byte, byte)> | |m| == 0x77 witness seq(0x77, _ => (0, 0))

  datatype Keys = Keys(shift: bool, released: bool)

  datatype Decoded = Decoded(keys: Keys, c: byte)

  /** What one scan code does, with 0 for no character. The code 0 is taken for an empty buffer. */
  function Decode(m: keymap, keys: Keys, sc: byte): Decoded {
    if sc == 0 then Decoded(keys, 0)
    else if sc == RELEASE then Decoded(keys.(released := true), 0)
    else if sc == LEFT_SHIFT || sc == RIGHT_SHIFT then Decoded(Keys(!keys.released, false), 0)
    else if keys.released || sc > MAX_SCANCODE then Decoded(keys.(released := false), 0)
    else Decoded(keys.(released := false), if keys.shift then m[sc].1 else m[sc].0)
  }

  function KeysAfter(m: keymap, keys: Keys, codes: seq<byte>): Keys {
    if codes == [] then keys
    else Decode(m, KeysAfter(m, keys, codes[..|codes| - 1]), codes[|codes| - 1]).keys
  }

  function Nonzero(c: byte): seq<byte> {
    if c == 0 then [] else [c]
  }

  /** The characters of a sequence of scan codes. */
  function Chars(m: keymap, keys: Keys, codes: seq<byte>): seq<byte> {
    if codes == [] then []
    else
      var n := |codes| - 1;
      Chars(m, keys, codes[..n]) + Nonzero(Decode(m, KeysAfter(m, keys, codes[..n]), codes[n]).c)
  }

  // --- Key strokes ------------------------------------------------------------------

  /** Scan codes of keys with a character. */
  predicate IsKey(sc: byte) {
    0 < sc <= MAX_SCANCODE && sc != LEFT_SHIFT && sc != RIGHT_SHIFT
  }

  lemma OneCodeMore(m: keymap, keys: Keys, codes: seq<byte>, sc: byte)
    ensures var d := Decode(m, KeysAfter(m, keys, codes), sc);
            && Chars(m, keys, codes + [sc]) == Chars(m, keys, codes) + Nonzero(d.c)
            && KeysAfter(m, keys, codes + [sc]) == d.keys
  {
    hide Decode;
    assert (codes + [sc])[..|codes|] == codes;
  }

  lemma NothingTyped()
    ensures Nonzero(0) == []
  {
  }

  lemma DecodesStroke(m: keymap, keys: Keys, sc: byte)
    requires IsKey(sc) && !keys.released
    ensures Decode(m, keys, sc) == Decoded(keys, if keys.shift then m[sc].1 else m[sc].0)
    ensures Decode(m, keys, RELEASE) == Decoded(keys.(released := true), 0)
    ensures Decode(m, keys.(released := true), sc) == Decoded(keys, 0)
  {
  }

  lemma DecodesShift(m: keymap, keys: Keys, press: byte, release: byte)
    requires !keys.released
    requires (press == LEFT_SHIFT || press == RIGHT_SHIFT) && (release == LEFT_SHIFT || release == RIGHT_SHIFT)
    ensures Decode(m, keys, press) == Decoded(Keys(true, false), 0)
    ensures Decode(m, keys, RELEASE) == Decoded(keys.(released := true), 0)
    ensures Decode(m, keys.(released := true), release) == Decoded(Keys(false, false), 0)
  {
  }

  /** After any codes: a key pressed and released types its character once, and changes nothing else. */
  lemma StrokeTypesOnce(m: keymap, keys: Keys, codes: seq<byte>, sc: byte)
    requires IsKey(sc) && !KeysAfter(m, keys, codes).released
    ensures var before := KeysAfter(m, keys, codes);
            var stroke := codes + [sc] + [RELEASE] + [sc];
            && Chars(m, keys, stroke) == Chars(m, keys, codes) + Nonzero(if before.shift then m[sc].1 else m[sc].0)
            && KeysAfter(m, keys, stroke) == before
  {
    hide Chars, KeysAfter, Decode, Nonzero;
    OneCodeMore(m, keys, codes, sc);
    OneCodeMore(m, keys, codes + [sc], RELEASE);
    OneCodeMore(m, keys, codes + [sc] + [RELEASE], sc);
    DecodesStroke(m, KeysAfter(m, keys, codes), sc);
    assert Nonzero(0) == [] by { NothingTyped(); }
  }

  /** Shift is on from when a shift key is pressed until one is released, and types nothing itself. */
  lemma ShiftHolds(m: keymap, keys: Keys, codes: seq<byte>, press: byte, release: byte)
    requires !KeysAfter(m, keys, codes).released
    requires (press == LEFT_SHIFT || press == RIGHT_SHIFT) && (release == LEFT_SHIFT || release == RIGHT_SHIFT)
    ensures KeysAfter(m, keys, codes + [press]) == Keys(true, false)
    ensures KeysAfter(m, keys, codes + [RELEASE] + [release]) == Keys(false, false)
    ensures Chars(m, keys, codes + [press]) == Chars(m, keys, codes + [RELEASE] + [release]) == Chars(m, keys, codes)
  {
    hide Chars, KeysAfter, Decode, Nonzero;
    OneCodeMore(m, keys, codes, press);
    OneCodeMore(m, keys, codes, RELEASE);
    OneCodeMore(m, keys, codes + [RELEASE], release);
    DecodesShift(m, KeysAfter(m, keys, codes), press, release);
    assert Nonzero(0) == [] by { NothingTyped(); }
  }

  // --- Words ------------------------------------------------------------------------

  /** A key with a character: any code up to 0x76 but those of the shift keys. */
  type key = sc: byte | 0 < sc <= 0x76 && sc != 0x12 && sc != 0x59 witness 1

  /** The codes of keys pressed and released one after the other. */
  function Strokes(word: seq<key>): seq<byte> {
    if word == [] then []
    else
      var sc := word[|word| - 1];
      Strokes(word[..|word| - 1]) + [sc] + [0xf0] + [sc]
  }

  function Typing(m: keymap, shift: bool, word: seq<key>): seq<byte>
  {
    if word == [] then []
    else
      var sc := word[|word| - 1];
      Typing(m, shift, word[..|word| - 1]) + Nonzero(if shift then m[sc].1 else m[sc].0)
  }

  lemma {:induction false} WordIsTyped(m: keymap, keys: Keys, codes: seq<byte>, word: seq<key>)
    requires !KeysAfter(m, keys, codes).released
    ensures var shift := KeysAfter(m, keys, codes).shift;
            Chars(m, keys, codes + Strokes(word)) == Chars(m, keys, codes) + Typing(m, shift, word)
    ensures KeysAfter(m, keys, codes + Strokes(word)) == KeysAfter(m, keys, codes)
  {
    hide Chars, KeysAfter, Nonzero;
    if word == [] {
      assert codes + Strokes(word) == codes;
    } else {
      var n := |word| - 1;
      var sc := word[n];
      WordIsTyped(m, keys, codes, word[..n]);
      assert IsKey(sc);
      StrokeTypesOnce(m, keys, codes + Strokes(word[..n]), sc);
      assert codes + Strokes(word) == codes + Strokes(word[..n]) + [sc] + [0xf0] + [sc];
    }
  }

  /** A word typed while either shift key is held down comes in the shifted characters, and shift is off after it. */
  lemma ShiftedWord(m: keymap, keys: Keys, codes: seq<byte>, word: seq<key>, shift: byte)
    requires !KeysAfter(m, keys, codes).released && (shift == 0x12 || shift == 0x59)
    ensures var held := codes + [shift] + Strokes(word) + [0xf0] + [shift];
            && Chars(m, keys, held) == Chars(m, keys, codes) + Typing(m, true, word)
            && KeysAfter(m, keys, held) == Keys(false, false)
  {
    hide Chars, KeysAfter, Nonzero, Strokes, Typing;
    ShiftHolds(m, keys, codes, shift, shift);
    WordIsTyped(m, keys, codes + [shift], word);
    ShiftHolds(m, keys, codes + [shift] + Strokes(word), shift, shift);
  }

  /** Codes above 0x76 type nothing, and leave shift as it is. */
  lemma SilentCode(m: keymap, keys: Keys, codes: seq<byte>, sc: byte)
    requires sc > 0x76 && sc != 0xf0
    ensures Chars(m, keys, codes + [sc]) == Chars(m, keys, codes)
    ensures KeysAfter(m, keys, codes + [sc]) == KeysAfter(m, keys, codes).(released := false)
  {
    hide Chars, KeysAfter;
    OneCodeMore(m, keys, codes, sc);
  }

  // --- Arrivals and reads in any order ----------------------------------------------

  datatype Input = Input(run: Run<byte>, keys: Keys, typed: seq<byte>)

  function Code(r: Ring<byte>): byte
    requires r.Valid()
  {
    if r.Ready() then r.Front() else 0
  }

  /** A poll that finds a code, or one turn of the loop of `keyboard_asc` after its poll. */
  function StepInput(m: keymap, i: Input, e: Event<byte>): (r: Input)
    requires i.run.ring.Valid()
    ensures r.run.ring.Valid() && r.run == StepRun(i.run, e)
  {
    match e
    case Arrival(_) => i.(run := StepRun(i.run, e))
    case Read =>
      var d := Decode(m, i.keys, Code(i.run.ring));
      Input(StepRun(i.run, e), d.keys, i.typed + Nonzero(d.c))
  }

  function InputOf(m: keymap, i: Input, events: seq<Event<byte>>): (r: Input)
    requires i.run.ring.Valid()
    ensures r.run.ring.Valid() && r.run == RunOf(i.run, events)
  {
    if events == [] then i else StepInput(m, InputOf(m, i, events[..|events| - 1]), events[|events| - 1])
  }

  /** The characters so far are those of the codes delivered so far. */
  predicate Follows(m: keymap, keys: Keys, i: Input) {
    i.typed == Chars(m, keys, i.run.delivered) && i.keys == KeysAfter(m, keys, i.run.delivered)
  }

  lemma StepFollows(m: keymap, keys: Keys, i: Input, e: Event<byte>)
    requires i.run.ring.Valid() && Follows(m, keys, i)
    ensures Follows(m, keys, StepInput(m, i, e))
  {
    hide Decode;
    if e.Read? {
      if i.run.ring.Ready() {
        var codes, sc := i.run.delivered, i.run.ring.Front();
        assert (codes + [sc])[..|codes|] == codes;
      } else {
        NoCode(m, i.keys);
      }
    }
  }

  lemma NoCode(m: keymap, keys: Keys)
    ensures Decode(m, keys, 0) == Decoded(keys, 0)
  {
  }

  lemma {:induction false} InputFollows(m: keymap, i: Input, events: seq<Event<byte>>)
    requires i.run.ring.Valid() && i.run.delivered == [] && i.typed == []
    ensures Follows(m, i.keys, InputOf(m, i, events))
  {
    hide StepInput, Follows;
    if events == [] {
      NothingFollows(m, i);
    } else {
      InputFollows(m, i, events[..|events| - 1]);
      StepFollows(m, i.keys, InputOf(m, i, events[..|events| - 1]), events[|events| - 1]);
    }
  }

  lemma NothingFollows(m: keymap, i: Input)
    requires i.run.delivered == [] && i.typed == []
    ensures Follows(m, i.keys, i)
  {
  }

  /** Nothing has happened. */
  predicate Fresh(i: Input) {
    && i.run.ring.Valid() && i.run.ring.Contents() == [] && i.run.dropped == 0
    && i.run.delivered == [] && i.run.arrived == [] && i.typed == []
  }

  /** When nothing arrived while the buffer was full and everything has been read, the characters are those of the
      scan codes that arrived: when they were polled and read does not matter. */
  lemma TimingDoesNotMatter(m: keymap, i: Input, events: seq<Event<byte>>)
    requires Fresh(i)
    requires var r := InputOf(m, i, events); r.run.dropped == 0 && r.run.ring.Contents() == []
    ensures var r := InputOf(m, i, events);
            r.typed == Chars(m, i.keys, r.run.arrived) && r.keys == KeysAfter(m, i.keys, r.run.arrived)
  {
    hide StepInput, StepRun, Decode, Chars, KeysAfter, Subsequence;
    InputFollows(m, i, events);
    AnyInterleaving(i.run, events);
    var r := InputOf(m, i, events).run;
    assert r.delivered == r.arrived[..|r.arrived|] == r.arrived;
  }

  // --- Calls of keyboard_asc --------------------------------------------------------

  /** What a poll finds. */
  datatype Poll = Nothing | Received(sc: byte)

  function Polled(r: Ring<byte>, line: seq<Poll>): (p: Ring<byte>)
    requires r.Valid()
    ensures p.Valid()
  {
    if line != [] && line[0].Received? then r.Put(line[0].sc) else r
  }

  function Later(line: seq<Poll>): seq<Poll> {
    if line == [] then [] else line[1..]
  }

  datatype Called = Called(c: byte, ring: Ring<byte>, keys: Keys, line: seq<Poll>)

  /** Whether the loop goes round after a code: only the release prefix and the shift keys. */
  predicate GoesRound(sc: byte) {
    sc == RELEASE || sc == LEFT_SHIFT || sc == RIGHT_SHIFT
  }

  /** `keyboard_asc`, when its polls find what is on the line and then nothing: the character, or 0. */
  function Asc(m: keymap, r: Ring<byte>, keys: Keys, line: seq<Poll>): (called: Called)
    requires r.Valid()
    ensures called.ring.Valid()
    decreases |line|, |r.Contents()|
  {
    var ring := Polled(r, line);
    var sc := Code(ring);
    var d := Decode(m, keys, sc);
    ReadShrinks(ring);
    if GoesRound(sc) then Asc(m, ring.Get(), d.keys, Later(line))
    else Called(d.c, ring.Get(), d.keys, Later(line))
  }

  lemma ReadShrinks(r: Ring<byte>)
    requires r.Valid()
    ensures r.Ready() ==> |r.Get().Contents()| < |r.Contents()|
    ensures !r.Ready() ==> Code(r) == 0
  {
    if r.Ready() {
      GetTakesOldest(r);
    }
  }

  /** The arrivals and reads that a call consists of. */
  function Events(m: keymap, r: Ring<byte>, keys: Keys, line: seq<Poll>): seq<Event<byte>>
    requires r.Valid()
    decreases |line|, |r.Contents()|
  {
    var ring := Polled(r, line);
    var sc := Code(ring);
    ReadShrinks(ring);
    (if line != [] && line[0].Received? then [Arrival(line[0].sc)] else []) + [Read]
    + if GoesRound(sc) then Events(m, ring.Get(), Decode(m, keys, sc).keys, Later(line)) else []
  }

  lemma {:induction false} InputAppend(m: keymap, i: Input, a: seq<Event<byte>>, b: seq<Event<byte>>)
    requires i.run.ring.Valid()
    ensures InputOf(m, i, a + b) == InputOf(m, InputOf(m, i, a), b)
    decreases |b|
  {
    hide StepInput, RunOf;
    if b == [] {
      assert a + b == a;
    } else {
      assert (a + b)[..|a + b| - 1] == a + b[..|b| - 1];
      InputAppend(m, i, a, b[..|b| - 1]);
    }
  }

  lemma OneTurn(m: keymap, i: Input, line: seq<Poll>)
    requires i.run.ring.Valid()
    ensures var poll := if line != [] && line[0].Received? then [Arrival(line[0].sc)] else [];
            var r := InputOf(m, i, poll + [Read]);
            var ring := Polled(i.run.ring, line);
            var d := Decode(m, i.keys, Code(ring));
            r.run.ring == ring.Get() && r.keys == d.keys && r.typed == i.typed + Nonzero(d.c)
  {
    hide Decode;
    var poll: seq<Event<byte>> := if line != [] && line[0].Received? then [Arrival(line[0].sc)] else [];
    var mid := InputOf(m, i, poll);
    assert (poll + [Read])[..|poll + [Read]| - 1] == poll;
    assert InputOf(m, i, poll + [Read]) == StepInput(m, mid, Read);
    if poll != [] {
      OneEvent(m, i, poll[0]);
    }
  }

  lemma OneEvent(m: keymap, i: Input, e: Event<byte>)
    requires i.run.ring.Valid()
    ensures InputOf(m, i, [e]) == StepInput(m, i, e)
  {
    hide StepInput, RunOf;
    assert [e][..0] == [];
    assert InputOf(m, i, []) == i;
  }

  /** A call does the same to the ring and the keys as its arrivals and reads, and its character, if it is not 0, is
      the one they type. */
  lemma {:induction false} CallIsEvents(m: keymap, i: Input, line: seq<Poll>)
    requires i.run.ring.Valid()
    ensures var called := Asc(m, i.run.ring, i.keys, line);
            var r := InputOf(m, i, Events(m, i.run.ring, i.keys, line));
            r.run.ring == called.ring && r.keys == called.keys && r.typed == i.typed + Nonzero(called.c)
    decreases |line|, |i.run.ring.Contents()|
  {
    hide Decode, StepInput, RunOf, InputOf;
    hide Ring<byte>.Contents;
    hide Ring<byte>.Get;
    var poll: seq<Event<byte>> := if line != [] && line[0].Received? then [Arrival(line[0].sc)] else [];
    var ring := Polled(i.run.ring, line);
    OneTurn(m, i, line);
    ReadShrinks(ring);
    var next := InputOf(m, i, poll + [Read]);
    if GoesRound(Code(ring)) {
      NoCharacter(m, i.keys, Code(ring));
      CallIsEvents(m, next, Later(line));
      InputAppend(m, i, poll + [Read], Events(m, next.run.ring, next.keys, Later(line)));
    } else {
      assert Events(m, i.run.ring, i.keys, line) == poll + [Read];
    }
  }

  lemma NoCharacter(m: keymap, keys: Keys, sc: byte)
    requires GoesRound(sc)
    ensures Decode(m, keys, sc).c == 0
  {
  }

  // --- Calls and polls of a whole session -------------------------------------------

  /** A poll outside `keyboard_asc`, as in `load` and `save`, or a call with what its polls find. */
  datatype Action = Elsewhere(p: Poll) | Call(line: seq<Poll>)

  datatype Played = Played(ring: Ring<byte>, keys: Keys, chars: seq<byte>)

  function Acted(m: keymap, r: Ring<byte>, keys: Keys, action: Action): (played: Played)
    requires r.Valid()
    ensures played.ring.Valid()
  {
    match action
    case Elsewhere(p) => Played(Polled(r, [p]), keys, [])
    case Call(line) => var called := Asc(m, r, keys, line); Played(called.ring, called.keys, Nonzero(called.c))
  }

  /** The characters, other than 0, that the calls return. */
  function Play(m: keymap, r: Ring<byte>, keys: Keys, actions: seq<Action>): Played
    requires r.Valid()
    decreases |actions|
  {
    if actions == [] then Played(r, keys, [])
    else
      var first := Acted(m, r, keys, actions[0]);
      var rest := Play(m, first.ring, first.keys, actions[1..]);
      rest.(chars := first.chars + rest.chars)
  }

  function ActionEvents(m: keymap, r: Ring<byte>, keys: Keys, action: Action): seq<Event<byte>>
    requires r.Valid()
  {
    match action
    case Elsewhere(p) => if p.Received? then [Arrival(p.sc)] else []
    case Call(line) => Events(m, r, keys, line)
  }

  function PlayEvents(m: keymap, r: Ring<byte>, keys: Keys, actions: seq<Action>): seq<Event<byte>>
    requires r.Valid()
    decreases |actions|
  {
    if actions == [] then []
    else
      var first := Acted(m, r, keys, actions[0]);
      ActionEvents(m, r, keys, actions[0]) + PlayEvents(m, first.ring, first.keys, actions[1..])
  }

  lemma OnePoll(m: keymap, i: Input, p: Poll)
    requires i.run.ring.Valid()
    ensures var r := InputOf(m, i, if p.Received? then [Arrival(p.sc)] else []);
            r.run.ring == Polled(i.run.ring, [p]) && r.keys == i.keys && r.typed == i.typed
  {
    if p.Received? {
      OneEvent(m, i, Arrival(p.sc));
    }
  }

  lemma ActionIsEvents(m: keymap, i: Input, action: Action)
    requires i.run.ring.Valid()
    ensures var played := Acted(m, i.run.ring, i.keys, action);
            var r := InputOf(m, i, ActionEvents(m, i.run.ring, i.keys, action));
            r.run.ring == played.ring && r.keys == played.keys && r.typed == i.typed + played.chars
  {
    hide Asc, Events, Polled, InputOf;
    match action {
      case Elsewhere(p) => OnePoll(m, i, p);
      case Call(line) => CallIsEvents(m, i, line);
    }
  }

  lemma {:induction false} PlayIsEvents(m: keymap, i: Input, actions: seq<Action>)
    requires i.run.ring.Valid()
    ensures var played := Play(m, i.run.ring, i.keys, actions);
            var r := InputOf(m, i, PlayEvents(m, i.run.ring, i.keys, actions));
            r.run.ring == played.ring && r.keys == played.keys && r.typed == i.typed + played.chars
    decreases |actions|
  {
    hide Acted, ActionEvents, StepInput, RunOf;
    if actions != [] {
      hide InputOf;
      var acted := Acted(m, i.run.ring, i.keys, actions[0]);
      var rest := Play(m, acted.ring, acted.keys, actions[1..]);
      assert Play(m, i.run.ring, i.keys, actions) == rest.(chars := acted.chars + rest.chars);
      var first := ActionEvents(m, i.run.ring, i.keys, actions[0]);
      var later := PlayEvents(m, acted.ring, acted.keys, actions[1..]);
      assert PlayEvents(m, i.run.ring, i.keys, actions) == first + later;
      hide Play, PlayEvents;
      hide Ring<byte>.Valid;
      ActionIsEvents(m, i, actions[0]);
      PlayIsEvents(m, InputOf(m, i, first), actions[1..]);
      InputAppend(m, i, first, later);
    }
  }

  /** However the calls and polls of a session are placed: if no code arrived while the buffer was full and all have
      been read, the characters that the calls returned are those of the sequence of scan codes. */
  lemma SessionTypesText(m: keymap, i: Input, actions: seq<Action>)
    requires Fresh(i)
    requires var r := InputOf(m, i, PlayEvents(m, i.run.ring, i.keys, actions)).run;
             r.dropped == 0 && r.ring.Contents() == []
    ensures var arrived := InputOf(m, i, PlayEvents(m, i.run.ring, i.keys, actions)).run.arrived;
            Play(m, i.run.ring, i.keys, actions).chars == Chars(m, i.keys, arrived)
  {
    hide Play, PlayEvents, InputOf, Chars;
    PlayIsEvents(m, i, actions);
    TimingDoesNotMatter(m, i, PlayEvents(m, i.run.ring, i.keys, actions));
  }

  // --- The driver in place ----------------------------------------------------------

  class Driver {
    const buffer: RingBuffer<byte>
    const m: keymap
    var shift: bool
    var released: bool

    ghost predicate Valid()
      reads this, buffer, buffer.data
    {
      buffer.Valid() && buffer.data.Length == BUFFER_SIZE
    }

    function State(): Keys
      reads this
    {
      Keys(shift, released)
    }

    constructor (m: keymap)
      ensures Valid() && State() == Keys(false, false) && this.m == m && buffer.State().Contents() == []
      ensures buffer.data.Length == 16
      ensures fresh(buffer) && fresh(buffer.data)
    {
      buffer := new RingBuffer<byte>(BUFFER_SIZE);
      this.m := m;
      shift, released := false, false;
    }

    /** `keyboard_poll` */
    method PollOnce(p: Poll)
      requires Valid()
      modifies buffer, buffer.data
      ensures Valid() && buffer.State() == Polled(old(buffer.State()), [p])
    {
      if p.Received? {
        buffer.Put(p.sc);
      }
    }

    /** What the switch does with a code that is not 0, and whether the loop goes on. */
    method TakeCode(code: byte) returns (more: bool, c: byte)
      requires code != 0
      modifies this`shift, this`released
      ensures more <==> GoesRound(code)
      ensures var d := Decode(m, old(State()), code); State() == d.keys && c == d.c
    {
      var sc := code;
      if sc == RELEASE {
        released := true;
        return true, 0;
      }
      if sc == LEFT_SHIFT || sc == RIGHT_SHIFT {
        shift := !released;
        released := false;
        return true, 0;
      }
      if released {
        sc := 0;
      }
      released := false;
      if sc == 0 || sc > MAX_SCANCODE {
        return false, 0;
      }
      return false, if shift then m[sc].1 else m[sc].0;
    }

    /** `keyboard_asc`, with what its polls find. */
    method Ascii(line: seq<Poll>) returns (c: byte)
      requires Valid()
      modifies this`shift, this`released, buffer, buffer.data
      ensures Valid()
      ensures var called := Asc(m, old(buffer.State()), old(State()), line);
              c == called.c && buffer.State() == called.ring && State() == called.keys
    {
      hide Decode, Polled;
      hide Ring<byte>.Contents;
      hide Ring<byte>.Get;
      var rest := line;
      while true
        invariant Valid()
        invariant Asc(m, buffer.State(), State(), rest) == Asc(m, old(buffer.State()), old(State()), line)
        decreases |rest|, |buffer.State().Contents()|
      {
        ghost var keys := State();
        NoCode(m, keys);
        NothingPolled(buffer.State());
        PollFound(buffer.State(), rest);
        PollOnce(if rest != [] then rest[0] else Nothing);
        rest := Later(rest);
        ReadShrinks(buffer.State());
        var sc := buffer.Take(0);
        if sc == 0 {
          return 0;
        }
        var more, typed := TakeCode(sc);
        if !more {
          return typed;
        }
      }
    }
  }

  lemma NothingPolled(r: Ring<byte>)
    requires r.Valid()
    ensures Polled(r, []) == r && Polled(r, [Nothing]) == r
  {
  }

  lemma PollFound(r: Ring<byte>, line: seq<Poll>)
    requires r.Valid()
    ensures Polled(r, line) == Polled(r, [if line != [] then line[0] else Nothing])
  {
  }
}
