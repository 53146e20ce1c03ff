/** The text adventure: its items, its map, its clocks. */
module Adventure {
  const MAXITEMS := 5
  const LAST_ITEM := 16

  // Items
  const KEY := 1
  const PITCHFORK := 2
  const FLASHLIGHT := 3
  const LAMP := 4
  const OIL := 5
  const CANDYBAR := 6
  const BOTTLE := 7
  const TOY_CAR := 9
  const MATCHES := 10
  const STALE_MEAT := 13
  const CHEESE := 15

  // Places
  const DRIVEWAY := 1
  const MASTER_BEDROOM := 17
  const SERVANTS_QUARTERS := 18
  const VACANT_ROOM := 21
  const CISTERN := 22
  const TUNNEL := 23
  const WOLF_TREE := 27
  const LAST_PLACE := 31

  function Name(item: nat): string {
    match item
    case 1 => "KEY"
    case 2 => "PITCHFORK"
    case 3 => "FLASHLIGHT"
    case 4 => "LAMP"
    case 5 => "OIL"
    case 6 => "CANDYBAR"
    case 7 => "BOTTLE"
    case 8 => "DOLL"
    case 9 => "TOY CAR"
    case 10 => "MATCHES"
    case 11 => "GOLD COIN"
    case 12 => "SILVER COIN"
    case 13 => "STALE MEAT"
    case 14 => "BOOK"
    case 15 => "CHEESE"
    case 16 => "OLD RADIO"
    case _ => ""
  }

  /** The exits of a place, north, south, east, west, up and down, when both hidden doors are shut. */
  function Exits(place: nat): (e: seq<nat>)
    ensures |e| == 6
  {
    match place
    case 1 => [2, 0, 0, 0, 0, 0]
    case 2 => [4, 1, 3, 5, 0, 0]
    case 3 => [0, 0, 6, 2, 0, 0]
    case 4 => [7, 2, 0, 0, 0, 0]
    case 5 => [0, 0, 2, 9, 0, 0]
    case 6 => [0, 0, 0, 3, 0, 0]
    case 7 => [0, 4, 0, 0, 8, 0]
    case 8 => [0, 0, 0, 0, 0, 7]
    case 9 => [0, 10, 5, 0, 0, 19]
    case 10 => [9, 0, 0, 11, 0, 0]
    case 11 => [0, 0, 10, 12, 14, 0]
    case 12 => [13, 0, 11, 0, 0, 0]
    case 13 => [0, 12, 0, 0, 0, 0]
    case 14 => [16, 0, 15, 17, 0, 11]
    case 15 => [0, 0, 0, 14, 0, 0]
    case 16 => [0, 14, 0, 0, 0, 0]
    case 17 => [0, 0, 14, 0, 0, 0]
    case 18 => [0, 0, 0, 0, 0, 13]
    case 19 => [0, 0, 0, 20, 9, 0]
    case 20 => [21, 0, 19, 0, 0, 0]
    case 21 => [0, 20, 0, 22, 0, 0]
    case 22 => [0, 0, 21, 0, 0, 0]
    case 23 => [24, 21, 0, 0, 0, 0]
    case 24 => [29, 23, 0, 26, 0, 0]
    case 25 => [26, 0, 24, 0, 0, 0]
    case 26 => [27, 25, 29, 0, 0, 0]
    case 27 => [0, 26, 28, 0, 0, 0]
    case 28 => [0, 29, 31, 27, 0, 0]
    case 29 => [28, 24, 30, 26, 0, 0]
    case 30 => [31, 0, 0, 29, 0, 0]
    case 31 => [0, 30, 0, 29, 0, 0]
    case _ => [0, 0, 0, 0, 0, 0]
  }

  /** The state of a game. The two entries of the map that change are the ways north from the bedroom and from
      the vacant room. */
  datatype Game = Game(inventory: seq<nat>, location: seq<nat>, bookcase: nat, door: nat, here: nat, turns: int,
                       lampLit: bool, lampFilled: bool, ateFood: bool, drankWater: bool, ratAttack: nat,
                       wolfState: nat, over: bool)

  predicate Shaped(g: Game) {
    && |g.inventory| == MAXITEMS && |g.location| == LAST_ITEM + 1
    && forall j | 0 <= j < MAXITEMS :: g.inventory[j] <= LAST_ITEM
  }

  type game = g: Game | Shaped(g)
    witness Game(seq(5, _ => 0), seq(17, _ => 0), 0, 0, 0, 0, false, false, false, false, 0, 0, false)

  function Initial(): game {
    Game([FLASHLIGHT, 0, 0, 0, 0],
         [0, 1, 8, 0, 7, 6, 9, 2, 16, 15, 18, 25, 29, 10, 12, 19, 17],
         0, 0, DRIVEWAY, 0, false, false, false, false, 0, 0, false)
  }

  /** A turn more, in 16 bits. */
  function After(turns: int): int {
    if turns == 32767 then -32768 else turns + 1
  }

  lemma ClockWraps(turns: int)
    requires -32768 <= turns < 32768
    ensures -32768 <= After(turns) < 32768 && After(turns) % 65536 == (turns + 1) % 65536
  {
  }

  // --- Items ------------------------------------------------------------------------

  /** The first slot from `from` on that holds an item of this name, or `MAXITEMS`. */
  function SlotOf(inventory: seq<nat>, name: string, from: nat): (j: nat)
    requires |inventory| == MAXITEMS && from <= MAXITEMS
    ensures from <= j <= MAXITEMS
    ensures j < MAXITEMS ==> inventory[j] != 0 && Name(inventory[j]) == name
    decreases MAXITEMS - from
  {
    hide Name;
    if from == MAXITEMS then MAXITEMS
    else if inventory[from] != 0 && Name(inventory[from]) == name then from
    else SlotOf(inventory, name, from + 1)
  }

  /** The first empty slot, or `MAXITEMS`. */
  function EmptySlot(inventory: seq<nat>, from: nat): (j: nat)
    requires |inventory| == MAXITEMS && from <= MAXITEMS
    ensures from <= j <= MAXITEMS && (j < MAXITEMS ==> inventory[j] == 0)
    decreases MAXITEMS - from
  {
    if from == MAXITEMS then MAXITEMS else if inventory[from] == 0 then from else EmptySlot(inventory, from + 1)
  }

  /** The item of a name, or one past the last. */
  function ItemOf(name: string, from: nat): (i: nat)
    requires 1 <= from <= LAST_ITEM + 1
    ensures from <= i <= LAST_ITEM + 1 && (i <= LAST_ITEM ==> Name(i) == name)
    decreases LAST_ITEM + 1 - from
  {
    hide Name;
    if from == LAST_ITEM + 1 then from else if Name(from) == name then from else ItemOf(name, from + 1)
  }

  predicate Carrying(g: game, name: string) {
    SlotOf(g.inventory, name, 0) < MAXITEMS
  }

  predicate IsHere(g: game, name: string) {
    var i := ItemOf(name, 1);
    i <= LAST_ITEM && g.location[i] == g.here
  }

  predicate AtHand(g: game, name: string) {
    Carrying(g, name) || IsHere(g, name)
  }

  // --- Commands ---------------------------------------------------------------------

  /** Where the first, or the last, space is, or the length. */
  function FirstSpace(line: string): (k: nat)
    ensures k <= |line|
  {
    if line == "" || line[0] == ' ' then 0 else 1 + FirstSpace(line[1..])
  }

  function LastSpace(line: string): (k: int)
    ensures -1 <= k < |line|
  {
    if line == "" then -1 else if line[|line| - 1] == ' ' then |line| - 1 else LastSpace(line[..|line| - 1])
  }

  datatype Argument = Missing | Argument(name: string)

  function ArgumentOf(line: string): Argument {
    var k := FirstSpace(line);
    if k == |line| then Missing else Argument(line[k + 1..])
  }

  /** The letter that a direction starts with; after a space at the end there is none. */
  function DirectionOf(line: string): (dir: nat)
    ensures dir <= 6
  {
    var rest := line[LastSpace(line) + 1..];
    if rest == "" then 6
    else
      match rest[0]
      case 'N' => 0 case 'S' => 1 case 'E' => 2 case 'W' => 3 case 'U' => 4 case 'D' => 5
      case _ => 6
  }

  function Drop(g: game, line: string): game {
    match ArgumentOf(line)
    case Missing => g
    case Argument(name) =>
      var j := SlotOf(g.inventory, name, 0);
      if j == MAXITEMS then g
      else
        g.(location := g.location[g.inventory[j] := g.here], inventory := g.inventory[j := 0],
           turns := After(g.turns))
  }

  function Take(g: game, line: string): game {
    match ArgumentOf(line)
    case Missing => g
    case Argument(name) =>
      var i, j := ItemOf(name, 1), EmptySlot(g.inventory, 0);
      if i > LAST_ITEM || g.location[i] != g.here || j == MAXITEMS then g
      else g.(inventory := g.inventory[j := i], location := g.location[i := 0], turns := After(g.turns))
  }

  /** Where a direction leads, or 0. */
  function Way(g: game, dir: nat): nat
    requires dir < 6
  {
    if g.here == MASTER_BEDROOM && dir == 0 then g.bookcase
    else if g.here == VACANT_ROOM && dir == 0 then g.door
    else Exits(g.here)[dir]
  }

  function Go(g: game, line: string): game {
    var dir := DirectionOf(line);
    if dir == 6 || Way(g, dir) == 0 then g else g.(here := Way(g, dir), turns := After(g.turns))
  }

  /** The bookcase opens from anywhere. */
  function Examine(g: game, line: string): game {
    match ArgumentOf(line)
    case Missing => g
    case Argument(name) =>
      var t := g.(turns := After(g.turns));
      if name == "BOOKCASE" then t.(bookcase := SERVANTS_QUARTERS) else t
  }

  predicate Named(name: string, item: nat) {
    name == Name(item)
  }

  function UseSupplies(g: game, name: string): game {
    hide Named;
    if Named(name, OIL) then (if Carrying(g, Name(LAMP)) then g.(lampFilled := true) else g)
    else if Named(name, MATCHES) then
      if Carrying(g, Name(LAMP)) && g.lampFilled then g.(lampLit := true) else g
    else if Named(name, CANDYBAR) then g.(ateFood := true)
    else if Named(name, BOTTLE) then (if g.here == CISTERN then g.(drankWater := true) else g)
    else if Named(name, STALE_MEAT) then g.(over := true)
    else g
  }

  function UseItem(g: game, name: string): game {
    hide Named;
    if Named(name, KEY) && g.here == VACANT_ROOM then g.(door := TUNNEL)
    else if Named(name, PITCHFORK) && g.here == WOLF_TREE && g.wolfState == 0 then g.(wolfState := 1)
    else if Named(name, TOY_CAR) && g.here == WOLF_TREE && g.wolfState == 1 then g.(wolfState := 2)
    else UseSupplies(g, name)
  }

  function Use(g: game, line: string): game {
    match ArgumentOf(line)
    case Missing => g
    case Argument(name) =>
      if !AtHand(g, name) then g else UseItem(g.(turns := After(g.turns)), name)
  }

  /** A bare direction. */
  predicate IsDirection(line: string) {
    || line == "N" || line == "S" || line == "E" || line == "W" || line == "U" || line == "D"
    || line == "NORTH" || line == "SOUTH" || line == "EAST" || line == "WEST" || line == "UP" || line == "DOWN"
  }

  /** What the first letter, and whether the line is a bare direction, choose. */
  datatype Verb = Going | Taking | Examining | Using | Dropping | Quitting | Looking

  function VerbOf(line: string): Verb {
    if line == "" || line[0] == 'H' || line[0] == 'I' then Looking
    else if line[0] == 'G' || IsDirection(line) then Going
    else
      match line[0]
      case 'T' => Taking
      case 'E' => Examining
      case 'U' => Using
      case 'D' => Dropping
      case 'Q' => Quitting
      case _ => Looking
  }

  /** One command, with the answer to whether to quit. */
  function Command(g: game, line: string, quit: bool): game {
    match VerbOf(line)
    case Going => Go(g, line)
    case Taking => Take(g, line)
    case Examining => Examine(g, line)
    case Using => Use(g, line)
    case Dropping => Drop(g, line)
    case Quitting => g.(over := g.over || quit)
    case Looking => g
  }

  // --- What happens after each command ----------------------------------------------

  predicate InTheDark(g: game) {
    g.turns >= 60 && (!g.lampLit || !AtHand(g, Name(LAMP)))
  }

  predicate PassesOut(g: game) {
    InTheDark(g) || (g.turns == 50 && !g.drankWater) || (g.turns == 40 && !g.ateFood)
  }

  function Rats(g: game): game {
    if g.here != TUNNEL || IsHere(g, Name(CHEESE)) then g
    else if g.ratAttack < 3 then g.(ratAttack := g.ratAttack + 1)
    else g.(over := true)
  }

  /** `doActions` */
  function Actions(g: game): game {
    if PassesOut(g) then g.(over := true)
    else
      var r := Rats(g);
      if r.here == WOLF_TREE && r.wolfState == 2 then r.(over := true) else r
  }

  function Turn(g: game, line: string, quit: bool): game {
    Actions(Command(g, line, quit))
  }

  datatype Line = Line(text: string, quit: bool)

  /** The game after the lines of input, as far as it goes on. */
  function Played(lines: seq<Line>): game {
    if lines == [] then Initial()
    else
      var g := Played(lines[..|lines| - 1]);
      if g.over then g else Turn(g, lines[|lines| - 1].text, lines[|lines| - 1].quit)
  }

  // --- What every game keeps --------------------------------------------------------

  /** Every item is in exactly one place: in one slot of the inventory exactly when its location is 0. */
  predicate Conserved(inventory: seq<nat>, location: seq<nat>)
    requires |inventory| == MAXITEMS && |location| == LAST_ITEM + 1
  {
    && (forall i | 1 <= i <= LAST_ITEM :: location[i] == 0 <==> i in inventory)
    && (forall j, k | 0 <= j < k < MAXITEMS :: inventory[j] == inventory[k] ==> inventory[j] == 0)
  }

  /** The woods and the tunnel are behind the locked door, the servants' quarters behind the bookcase. */
  predicate Gated(here: nat, bookcase: nat, door: nat) {
    && 1 <= here <= LAST_PLACE
    && (bookcase == 0 || bookcase == SERVANTS_QUARTERS) && (door == 0 || door == TUNNEL)
    && (here >= TUNNEL ==> door == TUNNEL)
    && (here == SERVANTS_QUARTERS ==> bookcase == SERVANTS_QUARTERS)
  }

  /** A lit lamp has been filled, with matches from behind the bookcase; the wolf is met behind the door. */
  predicate Earned(g: game) {
    && (g.lampLit ==> g.lampFilled && g.bookcase == SERVANTS_QUARTERS)
    && (g.location[MATCHES] == SERVANTS_QUARTERS || g.bookcase == SERVANTS_QUARTERS)
    && g.wolfState <= 2 && (g.wolfState >= 1 ==> g.door == TUNNEL) && g.ratAttack <= 3
  }

  /** A game that goes on past turn 40, 50 or 60 has eaten, drunk, and the lit lamp at hand; it is not won yet. */
  predicate Alive(g: game) {
    && (g.turns >= 40 ==> g.ateFood)
    && (g.turns >= 50 ==> g.drankWater)
    && (g.turns >= 60 ==> g.lampLit && AtHand(g, Name(LAMP)))
    && g.wolfState <= 1
  }

  /** What a command may assume and must leave for the checks that follow it: the clocks are at most one turn on. */
  predicate Due(g: game) {
    && (g.turns > 40 ==> g.ateFood)
    && (g.turns > 50 ==> g.drankWater)
    && (g.wolfState == 2 ==> g.here == WOLF_TREE)
  }

  predicate Invariant(g: game) {
    Conserved(g.inventory, g.location) && Gated(g.here, g.bookcase, g.door) && Earned(g)
  }

  /** Putting a carried item down. */
  lemma DropConserves(inventory: seq<nat>, location: seq<nat>, j: nat, here: nat)
    requires |inventory| == MAXITEMS && |location| == LAST_ITEM + 1 && j < MAXITEMS && here > 0
    requires 0 < inventory[j] <= LAST_ITEM && Conserved(inventory, location)
    ensures Conserved(inventory[j := 0], location[inventory[j] := here])
  {
    var dropped := inventory[j := 0];
    forall i | 1 <= i <= LAST_ITEM
      ensures location[inventory[j] := here][i] == 0 <==> i in dropped
    {
      if i in inventory && i != inventory[j] {
        var k :| 0 <= k < MAXITEMS && inventory[k] == i;
        assert dropped[k] == i;
      }
      if i in dropped {
        var k :| 0 <= k < MAXITEMS && dropped[k] == i;
        assert k != j && inventory[k] == i;
      }
    }
  }

  /** Picking up an item that is somewhere. */
  lemma TakeConserves(inventory: seq<nat>, location: seq<nat>, j: nat, i: nat)
    requires |inventory| == MAXITEMS && |location| == LAST_ITEM + 1 && j < MAXITEMS && 1 <= i <= LAST_ITEM
    requires inventory[j] == 0 && location[i] != 0 && Conserved(inventory, location)
    ensures Conserved(inventory[j := i], location[i := 0])
  {
    var taken := inventory[j := i];
    forall n | 1 <= n <= LAST_ITEM
      ensures location[i := 0][n] == 0 <==> n in taken
    {
      assert taken[j] == i;
      if n in inventory {
        var k :| 0 <= k < MAXITEMS && inventory[k] == n;
        assert taken[k] == n;
      }
      if n in taken && n != i {
        var k :| 0 <= k < MAXITEMS && taken[k] == n;
        assert inventory[k] == n;
      }
    }
  }

  lemma NoMatchesYet(g: game)
    requires Invariant(g) && g.bookcase == 0
    ensures MATCHES !in g.inventory && g.location[MATCHES] == SERVANTS_QUARTERS != g.here
  {
  }

  lemma InitialHolds()
    ensures Invariant(Initial()) && Alive(Initial()) && !Initial().over
    ensures var g := Initial(); !g.ateFood && !g.drankWater && !g.lampFilled && 3 in g.inventory
  {
    var g := Initial();
    assert g.inventory[0] == FLASHLIGHT;
    forall i | 1 <= i <= LAST_ITEM
      ensures g.location[i] == 0 <==> i in g.inventory
    {
    }
  }

  // --- Commands keep it -------------------------------------------------------------

  lemma DropKeeps(g: game, line: string)
    requires Invariant(g)
    ensures Invariant(Drop(g, line))
  {
    hide Conserved, ArgumentOf;
    if ArgumentOf(line).Argument? {
      var j := SlotOf(g.inventory, ArgumentOf(line).name, 0);
      if j < MAXITEMS {
        DropConserves(g.inventory, g.location, j, g.here);
        if g.bookcase == 0 {
          NoMatchesYet(g);
          assert g.inventory[j] in g.inventory;
        }
      }
    }
  }

  lemma TakeKeeps(g: game, line: string)
    requires Invariant(g)
    ensures Invariant(Take(g, line))
  {
    hide Conserved, ArgumentOf;
    if ArgumentOf(line).Argument? {
      var i, j := ItemOf(ArgumentOf(line).name, 1), EmptySlot(g.inventory, 0);
      if i <= LAST_ITEM && g.location[i] == g.here && j < MAXITEMS {
        TakeConserves(g.inventory, g.location, j, i);
        if g.bookcase == 0 {
          NoMatchesYet(g);
        }
      }
    }
  }

  /** No fixed exit leads into the gated places from outside. */
  lemma MapIsGated(place: nat, dir: nat)
    requires dir < 6
    ensures var to := Exits(place)[dir];
            to <= LAST_PLACE && (place < TUNNEL ==> to < TUNNEL) && to != SERVANTS_QUARTERS
  {
  }

  lemma GoKeeps(g: game, line: string)
    requires Invariant(g)
    ensures Invariant(Go(g, line))
  {
    hide Conserved, DirectionOf, Exits;
    if DirectionOf(line) < 6 {
      MapIsGated(g.here, DirectionOf(line));
    }
  }

  lemma {:induction false} CarriedIsInInventory(inventory: seq<nat>, name: string, from: nat)
    requires |inventory| == MAXITEMS && from <= MAXITEMS && SlotOf(inventory, name, from) < MAXITEMS
    ensures exists i :: i in inventory && i != 0 && Name(i) == name
  {
    hide Name;
    assert inventory[SlotOf(inventory, name, from)] in inventory;
  }

  lemma MatchesAreTheMatches(i: nat)
    requires Name(i) == Name(MATCHES)
    ensures i == MATCHES
  {
  }

  /** Matches can be used only after the bookcase has opened. */
  lemma MatchesAtHand(g: game)
    requires Invariant(g) && AtHand(g, Name(MATCHES))
    ensures g.bookcase == SERVANTS_QUARTERS
  {
    assert Name(MATCHES) == "MATCHES";
    hide Name;
    if g.bookcase == 0 {
      NoMatchesYet(g);
      hide Conserved;
      if Carrying(g, Name(MATCHES)) {
        CarriedIsInInventory(g.inventory, Name(MATCHES), 0);
        var i :| i in g.inventory && i != 0 && Name(i) == Name(MATCHES);
        MatchesAreTheMatches(i);
      } else {
        MatchesAreTheMatches(ItemOf(Name(MATCHES), 1));
      }
    }
  }

  /** Using an item moves nothing and nobody. */
  predicate StaysPut(g: game, h: game) {
    && h.inventory == g.inventory && h.location == g.location && h.here == g.here
    && h.bookcase == g.bookcase && h.ratAttack == g.ratAttack
  }

  predicate Advances(g: game, h: game, matches: bool) {
    && (h.door == g.door || h.door == TUNNEL)
    && (h.wolfState == g.wolfState || (1 <= h.wolfState <= 2 && g.here == WOLF_TREE))
    && (h.lampFilled == g.lampFilled || (h.lampFilled && h.lampLit == g.lampLit))
    && (h.lampLit == g.lampLit || (h.lampLit && g.lampFilled && matches))
  }

  lemma UseSuppliesFrame(g: game, name: string)
    ensures StaysPut(g, UseSupplies(g, name)) && Advances(g, UseSupplies(g, name), Named(name, MATCHES))
  {
    hide Carrying, Named, Name, Shaped;
  }

  lemma UseItemFrame(g: game, name: string)
    ensures StaysPut(g, UseItem(g, name)) && Advances(g, UseItem(g, name), Named(name, MATCHES))
  {
    hide Carrying, Named, Name, Shaped, UseSupplies;
    UseSuppliesFrame(g, name);
  }

  lemma UseItemKeeps(g: game, name: string)
    requires Invariant(g) && (Named(name, MATCHES) ==> g.bookcase == SERVANTS_QUARTERS)
    ensures Invariant(UseItem(g, name))
  {
    hide Conserved, Carrying, Named, Name, Shaped, UseItem;
    UseItemFrame(g, name);
  }

  lemma UseKeeps(g: game, line: string)
    requires Invariant(g)
    ensures Invariant(Use(g, line))
  {
    hide Conserved, ArgumentOf, AtHand, Name, UseItem;
    if ArgumentOf(line).Argument? && AtHand(g, ArgumentOf(line).name) {
      var name := ArgumentOf(line).name;
      if Named(name, MATCHES) {
        MatchesAtHand(g);
      }
      hide Named;
      UseItemKeeps(g.(turns := After(g.turns)), name);
    }
  }

  lemma CommandKeeps(g: game, line: string, quit: bool)
    requires Invariant(g)
    ensures Invariant(Command(g, line, quit))
  {
    hide Drop, Take, Go, Use, Conserved, ArgumentOf, VerbOf;
    match VerbOf(line) {
      case Going => GoKeeps(g, line);
      case Taking => TakeKeeps(g, line);
      case Using => UseKeeps(g, line);
      case Dropping => DropKeeps(g, line);
      case _ =>
    }
  }

  /** Using something forgets no meal, and only at the tree meets the wolf for the second time. */
  lemma UseItemIsDue(g: game, name: string)
    ensures var u := UseItem(g, name);
            && u.turns == g.turns && u.here == g.here && (g.ateFood ==> u.ateFood) && (g.drankWater ==> u.drankWater)
            && (u.wolfState == 2 ==> g.wolfState == 2 || u.here == WOLF_TREE)
  {
    hide Named;
  }

  lemma UseIsDue(g: game, line: string)
    requires Alive(g)
    ensures Due(Use(g, line))
  {
    hide ArgumentOf, AtHand, Carrying, Name, UseItem;
    match ArgumentOf(line) {
      case Missing =>
      case Argument(name) => UseItemIsDue(g.(turns := After(g.turns)), name);
    }
  }

  lemma OthersAreDue(g: game, line: string)
    requires Alive(g)
    ensures Due(Drop(g, line)) && Due(Take(g, line)) && Due(Examine(g, line)) && Due(Go(g, line))
  {
    hide ArgumentOf, SlotOf, EmptySlot, ItemOf, AtHand, DirectionOf, Name, Way, Shaped;
  }

  /** A command takes at most one turn, forgets no meal, and only at the tree brings the end of the story. */
  lemma CommandIsDue(g: game, line: string, quit: bool)
    requires Alive(g)
    ensures Due(Command(g, line, quit))
  {
    hide VerbOf, Drop, Take, Examine, Go, Use;
    UseIsDue(g, line);
    OthersAreDue(g, line);
  }

  lemma ActionsKeep(g: game)
    requires Invariant(g) && Due(g)
    ensures Invariant(Actions(g)) && (!Actions(g).over ==> Alive(Actions(g)))
  {
    hide Conserved, Name, SlotOf, ItemOf;
  }

  /** In every game, after any lines of input: every item is in exactly one place, nobody is behind a door that has not
      been opened, the lamp and the wolf have been earned, and a game that goes on has met all its clocks. */
  lemma {:induction false} EveryGame(lines: seq<Line>)
    ensures Invariant(Played(lines)) && (!Played(lines).over ==> Alive(Played(lines)))
  {
    hide Invariant, Alive, Due, Command, Actions, Initial;
    if lines == [] {
      InitialHolds();
    } else {
      var g := Played(lines[..|lines| - 1]);
      EveryGame(lines[..|lines| - 1]);
      if !g.over {
        var line := lines[|lines| - 1];
        CommandKeeps(g, line.text, line.quit);
        CommandIsDue(g, line.text, line.quit);
        ActionsKeep(Command(g, line.text, line.quit));
      }
    }
  }
}
