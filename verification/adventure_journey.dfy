/** The words and numbers of the text adventure: what each command does, and one way through the whole story. */
module Journeys {
  import opened Adventure

  // --- Lines ------------------------------------------------------------------------

  lemma {:induction false} FirstWord(verb: string, rest: string)
    requires ' ' !in verb
    ensures FirstSpace(verb + " " + rest) == |verb|
  {
    if verb != "" {
      assert (verb + " " + rest)[1..] == verb[1..] + " " + rest;
      FirstWord(verb[1..], rest);
    }
  }

  lemma {:induction false} LastWord(start: string, word: string)
    requires ' ' !in word
    ensures LastSpace(start + " " + word) == |start|
  {
    var line := start + " " + word;
    if word != "" {
      assert line[..|line| - 1] == start + " " + word[..|word| - 1];
      LastWord(start, word[..|word| - 1]);
    }
  }

  lemma {:induction false} NoSpace(word: string)
    requires ' ' !in word
    ensures LastSpace(word) == -1
  {
    if word != "" {
      NoSpace(word[..|word| - 1]);
    }
  }

  /** The argument is everything after the first space. */
  lemma AfterVerb(verb: string, rest: string)
    requires ' ' !in verb
    ensures ArgumentOf(verb + " " + rest) == Argument(rest)
  {
    FirstWord(verb, rest);
    assert (verb + " " + rest)[|verb| + 1..] == rest;
  }

  /** The column of the map that a letter stands for. */
  predicate Means(letter: char, dir: nat) {
    || (letter == 'N' && dir == 0) || (letter == 'S' && dir == 1) || (letter == 'E' && dir == 2)
    || (letter == 'W' && dir == 3) || (letter == 'U' && dir == 4) || (letter == 'D' && dir == 5)
    || (letter !in "NSEWUD" && dir == 6)
  }

  /** A direction is a word alone or the last word of a line, and only its first letter matters. */
  lemma DirectionWords(start: string, word: string)
    requires word != "" && ' ' !in word
    ensures Means(word[0], DirectionOf(word)) && Means(word[0], DirectionOf(start + " " + word))
  {
    NoSpace(word);
    LastWord(start, word);
    assert word[0..] == word;
    assert (start + " " + word)[|start| + 1..] == word;
  }

  // --- Walking ----------------------------------------------------------------------

  function Short(dir: nat): string
    requires dir < 6
  {
    match dir
    case 0 => "N" case 1 => "S" case 2 => "E" case 3 => "W" case 4 => "U" case _ => "D"
  }

  function Long(dir: nat): string
    requires dir < 6
  {
    match dir
    case 0 => "NORTH" case 1 => "SOUTH" case 2 => "EAST" case 3 => "WEST" case 4 => "UP" case _ => "DOWN"
  }

  /** A direction, in the forms that the help text allows. */
  predicate Says(line: string, dir: nat)
    requires dir < 6
  {
    || line == Short(dir) || line == Long(dir)
    || line == "G " + Short(dir) || line == "G " + Long(dir)
    || line == "GO " + Short(dir) || line == "GO " + Long(dir)
  }

  lemma GoWord(word: string)
    requires word != "" && ' ' !in word
    ensures Means(word[0], DirectionOf(word))
    ensures Means(word[0], DirectionOf("G " + word)) && Means(word[0], DirectionOf("GO " + word))
    ensures VerbOf("G " + word).Going? && VerbOf("GO " + word).Going?
  {
    hide DirectionOf;
    DirectionWords("G", word);
    DirectionWords("GO", word);
    assert "G" + " " + word == "G " + word && "GO" + " " + word == "GO " + word;
  }

  lemma SaysDirection(line: string, dir: nat)
    requires dir < 6 && Says(line, dir)
    ensures VerbOf(line).Going? && DirectionOf(line) == dir
  {
    hide DirectionOf;
    GoWord(Short(dir));
    GoWord(Long(dir));
  }

  /** Walking leads along the way of its own direction, or, where there is none, does not even take time. */
  lemma Walks(g: game, line: string, dir: nat, quit: bool)
    requires dir < 6 && Says(line, dir)
    ensures Command(g, line, quit) == if Way(g, dir) == 0 then g else g.(here := Way(g, dir), turns := After(g.turns))
  {
    hide DirectionOf, VerbOf, Says, Exits;
    SaysDirection(line, dir);
  }

  /** North and south, east and west, up and down. */
  function Opposite(dir: nat): (back: nat)
    requires dir < 6
    ensures back < 6 && back != dir
  {
    if dir % 2 == 0 then dir + 1 else dir - 1
  }

  /** The six ways without a way back: out of the bedroom through the bookcase and down the chute behind it, and four
      paths in the woods. */
  predicate OneWay(place: nat, dir: nat) {
    || (place == 17 && dir == 0) || (place == 18 && dir == 5)
    || (place == 24 && dir == 3) || (place == 25 && dir == 2) || (place == 28 && dir == 2) || (place == 31 && dir == 3)
  }

  lemma IndoorsLeadsBack(place: nat, dir: nat)
    requires dir < 6 && place <= 15 && Exits(place)[dir] != 0
    ensures Exits(Exits(place)[dir])[Opposite(dir)] == place && Exits(place)[dir] < 23
  {
  }

  lemma OutdoorsLeadsBack(place: nat, dir: nat)
    requires dir < 6 && place > 15 && Exits(place)[dir] != 0 && (place != 23 || dir != 1)
    ensures Exits(Exits(place)[dir])[Opposite(dir)] == place <==> !OneWay(place, dir)
  {
  }

  lemma DoorsLeadBack(g: game)
    ensures Exits(17)[0] == 0 && Exits(21)[0] == 0 && Exits(18)[1] == 0 && Exits(23)[1] == 21
  {
  }

  /** Who turns round comes back, but for the six one-way paths. */
  lemma WalkingBack(g: game, there: string, back: string, dir: nat, quit: bool)
    requires dir < 6 && Says(there, dir) && Says(back, Opposite(dir)) && Invariant(g)
    requires Command(g, there, quit).here != g.here
    ensures Command(Command(g, there, quit), back, quit).here == g.here <==> !OneWay(g.here, dir)
  {
    hide Command, Says, Exits, Conserved;
    Walks(g, there, dir, quit);
    var h := Command(g, there, quit);
    Walks(h, back, Opposite(dir), quit);
    DoorsLeadBack(g);
    if Exits(g.here)[dir] != 0 && (g.here != 23 || dir != 1) {
      if g.here <= 15 {
        IndoorsLeadsBack(g.here, dir);
      } else {
        OutdoorsLeadsBack(g.here, dir);
      }
    }
  }

  // --- Things -----------------------------------------------------------------------

  /** The item with a name, told from its length and its first letter. */
  function Item(name: string): nat {
    match |name|
    case 3 => if name[0] == 'K' then 1 else 5
    case 4 => if name[0] == 'L' then 4 else if name[0] == 'D' then 8 else 14
    case 6 => if name[0] == 'B' then 7 else 15
    case 7 => if name[0] == 'T' then 9 else 10
    case 8 => 6
    case 9 => if name[0] == 'P' then 2 else if name[0] == 'G' then 11 else 16
    case 10 => if name[0] == 'F' then 3 else 13
    case _ => 12
  }

  lemma ItemOfName(i: nat)
    requires 1 <= i <= 16
    ensures Item(Name(i)) == i
  {
  }

  lemma {:induction false} FoundByName(i: nat, from: nat)
    requires 1 <= from <= i <= 16
    ensures ItemOf(Name(i), from) == i
    decreases i - from
  {
    hide Name, Item;
    ItemOfName(i);
    ItemOfName(from);
    if from < i {
      FoundByName(i, from + 1);
    }
  }

  lemma {:induction false} SlotOfItem(g: game, i: nat, from: nat)
    requires 1 <= i <= 16 && from <= 5 && i !in g.inventory[..from]
    ensures var j := SlotOf(g.inventory, Name(i), from);
            if i in g.inventory then j < 5 && g.inventory[j] == i else j == 5
    decreases 5 - from
  {
    hide Name, Item;
    if from < 5 {
      ItemOfName(i);
      if g.inventory[from] != 0 {
        ItemOfName(g.inventory[from]);
      }
      if g.inventory[from] != i {
        assert g.inventory[..from + 1] == g.inventory[..from] + [g.inventory[from]];
        SlotOfItem(g, i, from + 1);
      }
    } else {
      assert g.inventory[..5] == g.inventory;
    }
  }

  lemma {:induction false} SlotIsEmpty(g: game, from: nat)
    requires from <= 5 && 0 !in g.inventory[..from]
    ensures EmptySlot(g.inventory, from) < 5 <==> 0 in g.inventory
    decreases 5 - from
  {
    if from < 5 && g.inventory[from] != 0 {
      assert g.inventory[..from + 1] == g.inventory[..from] + [g.inventory[from]];
      SlotIsEmpty(g, from + 1);
    } else if from == 5 {
      assert g.inventory[..5] == g.inventory;
    }
  }

  /** An item is at hand when it is carried or lies here. */
  lemma AtHandMeans(g: game, i: nat)
    requires 1 <= i <= 16
    ensures Carrying(g, Name(i)) <==> i in g.inventory
    ensures IsHere(g, Name(i)) <==> g.location[i] == g.here
    ensures AtHand(g, Name(i)) <==> i in g.inventory || g.location[i] == g.here
  {
    hide Name, SlotOf, ItemOf;
    FoundByName(i, 1);
    SlotOfItem(g, i, 0);
  }

  lemma Replaced(s: seq<nat>, j: nat, v: nat)
    requires j < |s|
    ensures multiset(s[j := v]) == multiset(s) - multiset{s[j]} + multiset{v}
  {
  }

  lemma ItemVerb(word: string, name: string)
    requires word in {"T", "TAKE", "D", "DROP", "U", "USE", "E", "EXAMINE"}
    ensures ArgumentOf(word + " " + name) == Argument(name)
    ensures word == "T" || word == "TAKE" ==> VerbOf(word + " " + name).Taking?
    ensures word == "D" || word == "DROP" ==> VerbOf(word + " " + name).Dropping?
    ensures word == "U" || word == "USE" ==> VerbOf(word + " " + name).Using?
    ensures word == "E" || word == "EXAMINE" ==> VerbOf(word + " " + name).Examining?
  {
    hide ArgumentOf;
    AfterVerb(word, name);
    assert ' ' in word + " " + name by { assert (word + " " + name)[|word|] == ' '; }
  }

  /** Taking what lies here, with a hand free, moves it into the inventory; otherwise nothing happens. */
  lemma Takes(g: game, word: string, i: nat, quit: bool)
    requires 1 <= i <= 16 && word in {"T", "TAKE"}
    ensures var t := Command(g, word + " " + Name(i), quit);
            if g.location[i] == g.here && 0 in g.inventory then
              && t == g.(inventory := t.inventory, location := g.location[i := 0], turns := After(g.turns))
              && multiset(t.inventory) == multiset(g.inventory) - multiset{0} + multiset{i}
            else t == g
  {
    hide Name, VerbOf, ArgumentOf, ItemOf, EmptySlot;
    ItemVerb(word, Name(i));
    FoundByName(i, 1);
    SlotIsEmpty(g, 0);
    var j := EmptySlot(g.inventory, 0);
    if j < 5 {
      Replaced(g.inventory, j, i);
    }
  }

  /** Dropping what is carried moves it here; otherwise nothing happens. */
  lemma Drops(g: game, word: string, i: nat, quit: bool)
    requires 1 <= i <= 16 && word in {"D", "DROP"}
    ensures var t := Command(g, word + " " + Name(i), quit);
            if i in g.inventory then
              && t == g.(inventory := t.inventory, location := g.location[i := g.here], turns := After(g.turns))
              && multiset(t.inventory) == multiset(g.inventory) - multiset{i} + multiset{0}
            else t == g
  {
    hide Name, VerbOf, ArgumentOf, SlotOf;
    ItemVerb(word, Name(i));
    SlotOfItem(g, i, 0);
    var j := SlotOf(g.inventory, Name(i), 0);
    if j < 5 {
      Replaced(g.inventory, j, 0);
    }
  }

  lemma TakesIntoSlot(g: game, i: nat)
    requires 1 <= i <= 16 && g.location[i] == g.here && 0 in g.inventory
    ensures var j := EmptySlot(g.inventory, 0);
            && j < 5 && g.inventory[j] == 0
            && Take(g, "TAKE " + Name(i))
               == g.(inventory := g.inventory[j := i], location := g.location[i := 0], turns := After(g.turns))
  {
    hide Name, VerbOf, ArgumentOf, EmptySlot, ItemOf;
    assert "TAKE" + " " + Name(i) == "TAKE " + Name(i);
    ItemVerb("TAKE", Name(i));
    FoundByName(i, 1);
    SlotIsEmpty(g, 0);
  }

  lemma DropsFromSlot(t: game, i: nat, j: nat)
    requires 1 <= i <= 16 && j < 5 && t.inventory[j] == i && forall k | 0 <= k < 5 && k != j :: t.inventory[k] != i
    ensures Drop(t, "DROP " + Name(i))
         == t.(inventory := t.inventory[j := 0], location := t.location[i := t.here], turns := After(t.turns))
  {
    hide Name, VerbOf, ArgumentOf, SlotOf;
    assert "DROP" + " " + Name(i) == "DROP " + Name(i);
    ItemVerb("DROP", Name(i));
    assert t.inventory[j] in t.inventory;
    SlotOfItem(t, i, 0);
  }

  lemma TakingAndDropping(name: string)
    ensures VerbOf("TAKE " + name).Taking? && VerbOf("DROP " + name).Dropping?
  {
    assert "TAKE" + " " + name == "TAKE " + name && "DROP" + " " + name == "DROP " + name;
    ItemVerb("TAKE", name);
    ItemVerb("DROP", name);
  }

  /** What is taken and dropped again is back in its place, and nothing else has changed but the time. */
  lemma TakenAndDropped(g: game, i: nat, quit: bool)
    requires 1 <= i <= 16 && Invariant(g) && g.location[i] == g.here && 0 in g.inventory
    ensures Command(Command(g, "TAKE " + Name(i), quit), "DROP " + Name(i), quit)
         == g.(turns := After(After(g.turns)))
  {
    hide Name, VerbOf, Take, Drop, EmptySlot, After;
    TakingAndDropping(Name(i));
    var j := EmptySlot(g.inventory, 0);
    TakesIntoSlot(g, i);
    var t := Take(g, "TAKE " + Name(i));
    assert i !in g.inventory;
    DropsFromSlot(t, i, j);
    assert t.inventory[j := 0] == g.inventory && t.location[i := g.here] == g.location;
  }

  /** What using an item that is at hand does. */
  predicate Used(g: game, i: nat, u: game) {
    && u == g.(door := u.door, wolfState := u.wolfState, lampFilled := u.lampFilled, lampLit := u.lampLit,
               ateFood := u.ateFood, drankWater := u.drankWater, over := u.over)
    && u.door == (if i == 1 && g.here == 21 then 23 else g.door)
    && u.wolfState == (if g.here == 27 && ((i == 2 && g.wolfState == 0) || (i == 9 && g.wolfState == 1))
                       then g.wolfState + 1 else g.wolfState)
    && (u.lampFilled <==> g.lampFilled || (i == 5 && 4 in g.inventory))
    && (u.lampLit <==> g.lampLit || (i == 10 && 4 in g.inventory && g.lampFilled))
    && (u.ateFood <==> g.ateFood || i == 6)
    && (u.drankWater <==> g.drankWater || (i == 7 && g.here == 22))
    && (u.over <==> g.over || i == 13)
  }

  lemma NamesApart(i: nat, k: nat)
    requires 1 <= i <= 16 && 1 <= k <= 16
    ensures Named(Name(i), k) <==> i == k
  {
    hide Name, Item;
    ItemOfName(i);
    ItemOfName(k);
  }

  lemma UsesSupplies(g: game, i: nat)
    requires 1 <= i <= 16 && i != 1 && i != 2 && i != 9
    ensures Used(g, i, UseSupplies(g, Name(i)))
  {
    hide Name, Named, Carrying, Shaped;
    NamesApart(i, 5);
    NamesApart(i, 10);
    NamesApart(i, 6);
    NamesApart(i, 7);
    NamesApart(i, 13);
    AtHandMeans(g, 4);
  }

  lemma UsesNothing(g: game, i: nat)
    requires i == 1 || i == 2 || i == 9
    ensures UseSupplies(g, Name(i)) == g
  {
    hide Name, Named, Carrying, Shaped;
    NamesApart(i, 5);
    NamesApart(i, 10);
    NamesApart(i, 6);
    NamesApart(i, 7);
    NamesApart(i, 13);
  }

  lemma UsesItem(g: game, i: nat)
    requires 1 <= i <= 16
    ensures Used(g, i, UseItem(g, Name(i)))
  {
    hide Name, Named, UseSupplies, Shaped;
    NamesApart(i, 1);
    NamesApart(i, 2);
    NamesApart(i, 9);
    if i == 1 || i == 2 || i == 9 {
      UsesNothing(g, i);
    } else {
      UsesSupplies(g, i);
    }
  }

  /** The key opens the door of the vacant room, the pitchfork and then the toy car settle the matter at the tree, the
      lamp takes oil and then fire, and so on; an item that is not at hand cannot be used. */
  lemma Uses(g: game, word: string, i: nat, quit: bool)
    requires 1 <= i <= 16 && word in {"U", "USE"}
    ensures var u := Command(g, word + " " + Name(i), quit);
            if i in g.inventory || g.location[i] == g.here then Used(g.(turns := After(g.turns)), i, u) else u == g
  {
    hide Name, VerbOf, ArgumentOf, AtHand, UseItem, Used;
    ItemVerb(word, Name(i));
    AtHandMeans(g, i);
    UsesItem(g.(turns := After(g.turns)), i);
  }

  /** Examining anything takes time; examining the bookcase, from anywhere, opens the way north from the bedroom. */
  lemma Examines(g: game, word: string, name: string, quit: bool)
    requires word in {"E", "EXAMINE"}
    ensures Command(g, word + " " + name, quit)
         == g.(turns := After(g.turns), bookcase := if name == "BOOKCASE" then 18 else g.bookcase)
    ensures var h := Command(g, word + " BOOKCASE", quit); h.here == 17 ==> Command(h, "N", quit).here == 18
  {
    hide ArgumentOf, VerbOf;
    ItemVerb(word, name);
    ItemVerb(word, "BOOKCASE");
    assert word + " " + "BOOKCASE" == word + " BOOKCASE";
    Walks(Command(g, word + " BOOKCASE", quit), "N", 0, quit);
  }

  /** Only `Q`, confirmed, ends the game at once; a line with another first letter does nothing at all. */
  lemma QuitsOrIgnores(g: game, line: string, quit: bool)
    requires !IsDirection(line) && (line != "" ==> line[0] !in "TEUDG")
    ensures Command(g, line, quit) == if line != "" && line[0] == 'Q' && quit then g.(over := true) else g
  {
    hide IsDirection, Take, Drop, Use, Examine, Go, Shaped;
  }

  // --- The checks after a command ---------------------------------------------------

  /** The lamp is lit, and carried or here. */
  predicate Light(g: game) {
    g.lampLit && (4 in g.inventory || g.location[4] == g.here)
  }

  predicate Faints(g: game) {
    (g.turns >= 60 && !Light(g)) || (g.turns == 50 && !g.drankWater) || (g.turns == 40 && !g.ateFood)
  }

  /** In the tunnel, with the cheese not on the ground. */
  predicate AmongRats(g: game) {
    g.here == 23 && g.location[15] != 23
  }

  /** A game ends for want of light, water or food at its hour, at the fourth command among the rats, or in victory; it
      changes nothing else than to bring the rats nearer. */
  lemma ActionsEnd(g: game)
    ensures var r := Actions(g);
            && (r.over <==> g.over || Faints(g) || (AmongRats(g) && g.ratAttack >= 3)
                            || (g.here == 27 && g.wolfState == 2))
            && r == g.(over := r.over,
                       ratAttack := if !Faints(g) && AmongRats(g) && g.ratAttack < 3 then g.ratAttack + 1
                                    else g.ratAttack)
  {
    hide Name, SlotOf, ItemOf, AtHand, IsHere, Carrying;
    AtHandMeans(g, 4);
    AtHandMeans(g, 15);
  }

  // --- One way through the story ----------------------------------------------------

  /** The game after more lines. */
  function Continued(g: game, texts: seq<string>): game
    decreases |texts|
  {
    if texts == [] || g.over then g else Continued(Turn(g, texts[0], false), texts[1..])
  }

  function Typed(texts: seq<string>): seq<Line> {
    seq(|texts|, k requires 0 <= k < |texts| => Line(texts[k], false))
  }

  lemma {:induction false} ContinuedAfter(g: game, a: seq<string>, b: seq<string>)
    ensures Continued(g, a + b) == Continued(Continued(g, a), b)
    decreases |a|
  {
    hide Turn;
    if a == [] {
      assert a + b == b;
    } else if !g.over {
      assert (a + b)[1..] == a[1..] + b;
      ContinuedAfter(Turn(g, a[0], false), a[1..], b);
    }
  }

  lemma {:induction false} ContinuedIsPlayed(texts: seq<string>)
    ensures Played(Typed(texts)) == Continued(Initial(), texts)
  {
    hide Turn, Initial;
    if texts != [] {
      var n := |texts| - 1;
      var before := texts[..n];
      assert Typed(texts)[..n] == Typed(before);
      assert texts == before + [texts[n]];
      ContinuedIsPlayed(before);
      ContinuedAfter(Initial(), before, [texts[n]]);
    }
  }

  /** Nothing happens on its own. */
  predicate Quiet(g: game) {
    !g.over && 0 <= g.turns < 40 && g.here != 23 && g.wolfState < 2
  }

  lemma QuietTurn(g: game)
    requires Quiet(g)
    ensures Actions(g) == g
  {
    ActionsEnd(g);
  }

  type direction = d: nat | d < 6

  function Letters(dirs: seq<direction>): (texts: seq<string>)
    ensures |texts| == |dirs|
  {
    if dirs == [] then [] else [Short(dirs[0])] + Letters(dirs[1..])
  }

  /** Where a walk from `place` ends, or 0 if it is not possible or comes through the tunnel. */
  function End(g: game, place: nat, dirs: seq<direction>): nat
    decreases |dirs|
  {
    if dirs == [] then place
    else
      var to := Way(g.(here := place), dirs[0]);
      if to == 0 || to == 23 then 0 else End(g, to, dirs[1..])
  }

  /** Walking from place to place. */
  lemma {:induction false} Walk(g: game, dirs: seq<direction>)
    requires Quiet(g) && g.turns + |dirs| < 40 && End(g, g.here, dirs) != 0
    ensures Continued(g, Letters(dirs)) == g.(here := End(g, g.here, dirs), turns := g.turns + |dirs|)
    decreases |dirs|
  {
    hide Actions, Command, Shaped, Exits, Short;
    if dirs != [] {
      SaysShort(dirs[0]);
      Walks(g, Short(dirs[0]), dirs[0], false);
      var h := g.(here := Way(g, dirs[0]), turns := g.turns + 1);
      QuietTurn(h);
      SameWays(g, h, h.here, dirs[1..]);
      Walk(h, dirs[1..]);
      assert Turn(g, Short(dirs[0]), false) == h;
    }
  }

  lemma SaysShort(dir: direction)
    ensures Says(Short(dir), dir)
  {
  }

  lemma {:induction false} SameWays(g: game, h: game, place: nat, dirs: seq<direction>)
    requires g.bookcase == h.bookcase && g.door == h.door
    ensures End(g, place, dirs) == End(h, place, dirs)
    decreases |dirs|
  {
    hide Exits;
    if dirs != [] {
      SameWays(g, h, Way(g.(here := place), dirs[0]), dirs[1..]);
    }
  }

  lemma OneLine(g: game, text: string)
    requires !g.over
    ensures Continued(g, [text]) == Turn(g, text, false)
  {
    hide Turn;
  }

  lemma TakeIt(g: game, i: nat)
    requires Quiet(g) && g.turns < 39 && 1 <= i <= 16 && g.location[i] == g.here && 0 in g.inventory
    ensures var t := Continued(g, ["TAKE " + Name(i)]);
            && t == g.(inventory := t.inventory, location := g.location[i := 0], turns := g.turns + 1)
            && multiset(t.inventory) == multiset(g.inventory) - multiset{0} + multiset{i}
  {
    hide Actions, Command, Name;
    OneLine(g, "TAKE " + Name(i));
    assert "TAKE" + " " + Name(i) == "TAKE " + Name(i);
    Takes(g, "TAKE", i, false);
    QuietTurn(Command(g, "TAKE " + Name(i), false));
  }

  lemma UseIt(g: game, i: nat)
    requires Quiet(g) && g.turns < 39 && 1 <= i <= 16 && i in g.inventory
    ensures var u := Command(g, "USE " + Name(i), false);
            Used(g.(turns := g.turns + 1), i, u) && Continued(g, ["USE " + Name(i)]) == Actions(u)
  {
    hide Actions, Command, Name, Used;
    OneLine(g, "USE " + Name(i));
    assert "USE" + " " + Name(i) == "USE " + Name(i);
    Uses(g, "USE", i, false);
  }

  /** Nothing has been done yet but to walk and to take things, and `free` hands are free. */
  predicate OnTheWay(g: game, here: nat, turns: int, free: nat) {
    && g == Initial().(here := here, turns := turns, inventory := g.inventory, location := g.location)
    && multiset(g.inventory)[0] == free
  }

  /** Everything but the item `i` is where it was. */
  predicate Fetched(g: game, t: game, i: nat)
    requires 1 <= i <= 16
  {
    t.location == g.location[i := 0] && i in t.inventory && forall k | k in g.inventory :: k == 0 || k in t.inventory
  }

  lemma Fetch(g: game, here: nat, turns: int, free: nat, i: nat)
    requires OnTheWay(g, here, turns, free) && 0 <= turns < 38 && here != 23 && free > 0
    requires 1 <= i <= 16 && here == g.location[i]
    ensures var t := Continued(g, ["TAKE " + Name(i)]); OnTheWay(t, here, turns + 1, free - 1) && Fetched(g, t, i)
  {
    hide Name, Continued;
    TakeIt(g, i);
    var t := Continued(g, ["TAKE " + Name(i)]);
    forall k | k in g.inventory
      ensures k == 0 || k in t.inventory
    {
      assert multiset(g.inventory)[k] > 0;
      assert k != 0 ==> multiset(t.inventory)[k] > 0;
    }
    assert multiset(t.inventory)[i] > 0;
  }

  lemma Leg(g: game, here: nat, turns: int, free: nat, dirs: seq<direction>)
    requires OnTheWay(g, here, turns, free) && 0 <= turns < 38 - |dirs| && here != 23
    requires 0 < End(g, here, dirs) != 23
    ensures var t := Continued(g, Letters(dirs));
            && OnTheWay(t, End(g, here, dirs), turns + |dirs|, free)
            && t.location == g.location && t.inventory == g.inventory
  {
    hide End, Letters, Continued;
    Walk(g, dirs);
  }

  lemma ToTheHayloft(g: game)
    requires OnTheWay(g, 1, 1, 3)
    ensures var t := Continued(g, ["N", "N", "N", "U"]);
            OnTheWay(t, 8, 5, 3) && t.location == g.location && t.inventory == g.inventory
  {
    assert End(g, 2, [0, 0, 4]) == End(g, 4, [0, 4]) == End(g, 7, [4]) == 8;
    assert Letters([0, 4]) == ["N", "U"];
    assert Letters([0, 0, 0, 4]) == ["N", "N", "N", "U"];
    hide Exits, Letters, Continued, Initial;
    Leg(g, 1, 1, 3, [0, 0, 0, 4]);
  }

  lemma ToTheDriveway(g: game)
    requires OnTheWay(g, 8, 6, 2)
    ensures var t := Continued(g, ["D", "S", "S"]);
            OnTheWay(t, 2, 9, 2) && t.location == g.location && t.inventory == g.inventory
  {
    assert End(g, 7, [1, 1]) == End(g, 4, [1]) == 2;
    assert Letters([1, 1]) == ["S", "S"];
    assert Letters([5, 1, 1]) == ["D", "S", "S"];
    hide Exits, Letters, Continued, Initial;
    Leg(g, 8, 6, 2, [5, 1, 1]);
  }

  lemma ToTheKitchen(g: game)
    requires OnTheWay(g, 2, 9, 2)
    ensures var t := Continued(g, ["W", "W"]);
            OnTheWay(t, 9, 11, 2) && t.location == g.location && t.inventory == g.inventory
  {
    assert End(g, 5, [3]) == 9;
    assert Letters([3]) == ["W"];
    assert Letters([3, 3]) == ["W", "W"];
    hide Exits, Letters, Continued, Initial;
    Leg(g, 2, 9, 2, [3, 3]);
  }

  lemma ToTheBoysBedroom(g: game)
    requires OnTheWay(g, 9, 11, 2)
    ensures var t := Continued(g, ["S", "W", "U", "E"]);
            OnTheWay(t, 15, 15, 2) && t.location == g.location && t.inventory == g.inventory
  {
    assert End(g, 10, [3, 4, 2]) == End(g, 11, [4, 2]) == End(g, 14, [2]) == 15;
    assert Letters([4, 2]) == ["U", "E"];
    assert Letters([1, 3, 4, 2]) == ["S", "W", "U", "E"];
    hide Exits, Letters, Continued, Initial;
    Leg(g, 9, 11, 2, [1, 3, 4, 2]);
  }

  lemma BackToTheKitchen(g: game)
    requires OnTheWay(g, 15, 16, 1)
    ensures var t := Continued(g, ["W", "D", "E", "N"]);
            OnTheWay(t, 9, 20, 1) && t.location == g.location && t.inventory == g.inventory
  {
    assert End(g, 14, [5, 2, 0]) == End(g, 11, [2, 0]) == End(g, 10, [0]) == 9;
    assert Letters([2, 0]) == ["E", "N"];
    assert Letters([3, 5, 2, 0]) == ["W", "D", "E", "N"];
    hide Exits, Letters, Continued, Initial;
    Leg(g, 15, 16, 1, [3, 5, 2, 0]);
  }

  lemma ToTheLockedDoor(g: game)
    requires OnTheWay(g, 9, 20, 1)
    ensures var t := Continued(g, ["D", "W", "N"]);
            OnTheWay(t, 21, 23, 1) && t.location == g.location && t.inventory == g.inventory
  {
    assert End(g, 19, [3, 0]) == End(g, 20, [0]) == 21;
    assert Letters([3, 0]) == ["W", "N"];
    assert Letters([5, 3, 0]) == ["D", "W", "N"];
    hide Exits, Letters, Continued, Initial;
    Leg(g, 9, 20, 1, [5, 3, 0]);
  }

  lemma SomeNames()
    ensures Name(1) == "KEY" && Name(2) == "PITCHFORK" && Name(9) == "TOY CAR"
  {
  }

  lemma Started(g: game)
    requires g == Initial()
    ensures OnTheWay(g, 1, 0, 4) && g.location[1] == 1 && g.location[2] == 8 && g.location[9] == 15
  {
  }

  function ToThePitchfork(): seq<string> {
    ["TAKE KEY"] + ["N", "N", "N", "U"] + ["TAKE PITCHFORK"]
  }

  function ToTheToyCar(): seq<string> {
    ["D", "S", "S"] + ["W", "W"] + ["S", "W", "U", "E"] + ["TAKE TOY CAR"]
  }

  function ToTheTunnel(): seq<string> {
    ["W", "D", "E", "N"] + ["D", "W", "N"]
  }

  lemma Pitchfork(g: game)
    requires g == Initial()
    ensures var t := Continued(g, ToThePitchfork());
            OnTheWay(t, 8, 6, 2) && t.location[9] == 15 && 1 in t.inventory && 2 in t.inventory
  {
    Started(g);
    SomeNames();
    hide Initial, Name, OnTheWay, Continued;
    assert "TAKE " + "KEY" == "TAKE KEY" && "TAKE " + "PITCHFORK" == "TAKE PITCHFORK";
    Fetch(g, 1, 0, 4, 1);
    var a := Continued(g, ["TAKE KEY"]);
    ToTheHayloft(a);
    var b := Continued(a, ["N", "N", "N", "U"]);
    Fetch(b, 8, 5, 3, 2);
    ContinuedAfter(g, ["TAKE KEY"], ["N", "N", "N", "U"]);
    ContinuedAfter(g, ["TAKE KEY"] + ["N", "N", "N", "U"], ["TAKE PITCHFORK"]);
  }

  lemma ToyCar(g: game)
    requires OnTheWay(g, 8, 6, 2) && g.location[9] == 15
    ensures var t := Continued(g, ToTheToyCar());
            OnTheWay(t, 15, 16, 1) && 9 in t.inventory && forall k | k in g.inventory :: k == 0 || k in t.inventory
  {
    SomeNames();
    hide Initial, Name, OnTheWay, Continued;
    assert "TAKE " + "TOY CAR" == "TAKE TOY CAR";
    ToTheDriveway(g);
    var a := Continued(g, ["D", "S", "S"]);
    ToTheKitchen(a);
    var b := Continued(a, ["W", "W"]);
    ToTheBoysBedroom(b);
    var c := Continued(b, ["S", "W", "U", "E"]);
    Fetch(c, 15, 15, 2, 9);
    ContinuedAfter(g, ["D", "S", "S"], ["W", "W"]);
    ContinuedAfter(g, ["D", "S", "S"] + ["W", "W"], ["S", "W", "U", "E"]);
    ContinuedAfter(g, ["D", "S", "S"] + ["W", "W"] + ["S", "W", "U", "E"], ["TAKE TOY CAR"]);
  }

  lemma LockedDoor(g: game)
    requires OnTheWay(g, 15, 16, 1)
    ensures var t := Continued(g, ToTheTunnel()); OnTheWay(t, 21, 23, 1) && t.inventory == g.inventory
  {
    hide Initial, OnTheWay, Continued;
    BackToTheKitchen(g);
    ToTheLockedDoor(Continued(g, ["W", "D", "E", "N"]));
    ContinuedAfter(g, ["W", "D", "E", "N"], ["D", "W", "N"]);
  }

  /** Past the locked door, at most once among the rats. */
  predicate Through(g: game, here: nat, turns: int, wolf: nat) {
    !g.over && g.here == here && g.turns == turns && g.wolfState == wolf && g.door == 23 && g.ratAttack <= 1
  }

  lemma OpensDoor(g: game)
    requires OnTheWay(g, 21, 23, 1) && 1 in g.inventory
    ensures var t := Continued(g, ["USE KEY"]);
            Through(t, 21, 24, 0) && t.ratAttack == 0 && t.inventory == g.inventory
  {
    SomeNames();
    assert "USE " + "KEY" == "USE KEY";
    hide Name, Continued, Command, Actions;
    UseIt(g, 1);
    QuietTurn(Command(g, "USE KEY", false));
  }

  lemma EntersTunnel(g: game)
    requires Through(g, 21, 24, 0) && g.ratAttack == 0
    ensures var t := Continued(g, ["N"]); Through(t, 23, 25, 0) && t.inventory == g.inventory
  {
    hide Command, Actions, Continued, Exits;
    OneLine(g, "N");
    Walks(g, "N", 0, false);
    ActionsEnd(Command(g, "N", false));
  }

  lemma LeavesTunnel(g: game)
    requires Through(g, 23, 25, 0)
    ensures var t := Continued(g, ["N"]); Through(t, 24, 26, 0) && t.inventory == g.inventory
  {
    assert Exits(23)[0] == 24;
    hide Command, Actions, Continued, Exits;
    OneLine(g, "N");
    Walks(g, "N", 0, false);
    ActionsEnd(Command(g, "N", false));
  }

  lemma ComesToTree(g: game)
    requires Through(g, 24, 26, 0)
    ensures var t := Continued(g, ["W", "N"]); Through(t, 27, 28, 0) && t.inventory == g.inventory
  {
    assert End(g, 26, [0]) == 27;
    assert Letters([3, 0]) == ["W", "N"];
    hide Exits, Letters, Continued;
    Walk(g, [3, 0]);
  }

  lemma DrivesWolfAway(g: game)
    requires Through(g, 27, 28, 0) && 2 in g.inventory
    ensures var t := Continued(g, ["USE PITCHFORK"]); Through(t, 27, 29, 1) && t.inventory == g.inventory
  {
    SomeNames();
    assert "USE " + "PITCHFORK" == "USE PITCHFORK";
    hide Name, Continued, Command, Actions;
    UseIt(g, 2);
    QuietTurn(Command(g, "USE PITCHFORK", false));
  }

  lemma BringsHimHome(g: game)
    requires Through(g, 27, 29, 1) && 9 in g.inventory
    ensures var t := Continued(g, ["USE TOY CAR"]); t.over && t.wolfState == 2 && t.here == 27 && t.turns == 30
  {
    SomeNames();
    assert "USE " + "TOY CAR" == "USE TOY CAR";
    hide Name, Continued, Command, Actions;
    UseIt(g, 9);
    ActionsEnd(Command(g, "USE TOY CAR", false));
  }

  function ToTheTree(): seq<string> {
    ["USE KEY"] + ["N"] + ["N"] + ["W", "N"] + ["USE PITCHFORK"] + ["USE TOY CAR"]
  }

  lemma Rescues(g: game)
    requires OnTheWay(g, 21, 23, 1) && 1 in g.inventory && 2 in g.inventory && 9 in g.inventory
    ensures var t := Continued(g, ToTheTree()); t.over && t.wolfState == 2 && t.here == 27 && t.turns == 30
  {
    hide OnTheWay, Continued, Through;
    OpensDoor(g);
    ContinuedAfter(g, ["USE KEY"], ["N"]);
    var a := Continued(g, ["USE KEY"]);
    assert Through(a, 21, 24, 0) && a.ratAttack == 0;
    EntersTunnel(a);
    var b := Continued(a, ["N"]);
    LeavesTunnel(b);
    ContinuedAfter(g, ["USE KEY"] + ["N"], ["N"]);
    var c := Continued(b, ["N"]);
    ComesToTree(c);
    ContinuedAfter(g, ["USE KEY"] + ["N"] + ["N"], ["W", "N"]);
    var d := Continued(c, ["W", "N"]);
    DrivesWolfAway(d);
    ContinuedAfter(g, ["USE KEY"] + ["N"] + ["N"] + ["W", "N"], ["USE PITCHFORK"]);
    var e := Continued(d, ["USE PITCHFORK"]);
    BringsHimHome(e);
    ContinuedAfter(g, ["USE KEY"] + ["N"] + ["N"] + ["W", "N"] + ["USE PITCHFORK"], ["USE TOY CAR"]);
  }

  /** The story can be brought to its good end: these thirty lines win the game. */
  lemma GameCanBeWon()
    ensures var g := Played(Typed(ToThePitchfork() + ToTheToyCar() + ToTheTunnel() + ToTheTree()));
            g.over && g.wolfState == 2 && g.here == 27 && g.turns == 30
  {
    hide ToThePitchfork, ToTheToyCar, ToTheTunnel, ToTheTree, Typed, Played, Continued, Initial, OnTheWay;
    var g := Initial();
    Pitchfork(g);
    var a := Continued(g, ToThePitchfork());
    ToyCar(a);
    ContinuedAfter(g, ToThePitchfork(), ToTheToyCar());
    var b := Continued(a, ToTheToyCar());
    LockedDoor(b);
    ContinuedAfter(g, ToThePitchfork() + ToTheToyCar(), ToTheTunnel());
    Rescues(Continued(b, ToTheTunnel()));
    ContinuedAfter(g, ToThePitchfork() + ToTheToyCar() + ToTheTunnel(), ToTheTree());
    ContinuedIsPlayed(ToThePitchfork() + ToTheToyCar() + ToTheTunnel() + ToTheTree());
  }
}
