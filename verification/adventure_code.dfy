/** The adventure as it runs: arrays for the inventory and the places of the items, and commands that change them. */
module AdventureCode {
  import opened Adventure

  class Farmhouse {
    const inventory: array<nat>
    const location: array<nat>
    var bookcase: nat
    var door: nat
    var here: nat
    var turns: int
    var lampLit: bool
    var lampFilled: bool
    var ateFood: bool
    var drankWater: bool
    var ratAttack: nat
    var wolfState: nat
    var over: bool

    ghost predicate Valid()
      reads this, inventory
    {
      && inventory != location && inventory.Length == MAXITEMS && location.Length == LAST_ITEM + 1
      && forall j | 0 <= j < MAXITEMS :: inventory[j] <= LAST_ITEM
    }

    ghost function Current(): game
      requires Valid()
      reads this, inventory, location
    {
      Game(inventory[..], location[..], bookcase, door, here, turns, lampLit, lampFilled, ateFood, drankWater,
           ratAttack, wolfState, over)
    }

    /** `initialize` */
    constructor ()
      ensures Valid() && Current() == Initial() && fresh(inventory) && fresh(location)
    {
      var items, places := new nat[MAXITEMS], new nat[][0, 1, 8, 0, 7, 6, 9, 2, 16, 15, 18, 25, 29, 10, 12, 19, 17];
      items[0], items[1], items[2], items[3], items[4] := FLASHLIGHT, 0, 0, 0, 0;
      inventory, location := items, places;
      here := DRIVEWAY;
      lampFilled, lampLit, ateFood, drankWater := false, false, false, false;
      ratAttack, wolfState, turns, over := 0, 0, 0, false;
      bookcase, door := 0, 0;
      new;
      assert inventory[..] == Initial().inventory && location[..] == Initial().location;
    }

    /** The slot of an item of this name, or `MAXITEMS`: the loop of `carryingItem` and `doDrop`. */
    method FindSlot(item: string) returns (j: nat)
      requires Valid()
      ensures j == SlotOf(inventory[..], item, 0)
    {
      hide Name;
      j := 0;
      while j < MAXITEMS
        invariant j <= MAXITEMS && SlotOf(inventory[..], item, j) == SlotOf(inventory[..], item, 0)
      {
        if inventory[j] != 0 && Name(inventory[j]) == item {
          return;
        }
        j := j + 1;
      }
    }

    /** The number of an item, or one past the last: the loop of `itemIsHere` and `doTake`. */
    method FindItem(item: string) returns (i: nat)
      ensures i == ItemOf(item, 1)
    {
      hide Name;
      i := 1;
      while i <= LAST_ITEM
        invariant 1 <= i <= LAST_ITEM + 1 && ItemOf(item, i) == ItemOf(item, 1)
      {
        if Name(i) == item {
          return;
        }
        i := i + 1;
      }
    }

    method IsAtHand(item: string) returns (r: bool)
      requires Valid()
      ensures r == AtHand(Current(), item)
    {
      var j := FindSlot(item);
      var i := FindItem(item);
      r := j < MAXITEMS || (i <= LAST_ITEM && location[i] == here);
    }

    method DoDrop(line: string)
      requires Valid()
      modifies this`turns, inventory, location
      ensures Valid() && Current() == Drop(old(Current()), line)
    {
      hide Name, SlotOf;
      match ArgumentOf(line) {
        case Missing =>
        case Argument(item) =>
          var j := FindSlot(item);
          if j < MAXITEMS {
            location[inventory[j]] := here;
            inventory[j] := 0;
            turns := After(turns);
          }
      }
    }

    method DoTake(line: string)
      requires Valid()
      modifies this`turns, inventory, location
      ensures Valid() && Current() == Take(old(Current()), line)
    {
      hide Name, ItemOf;
      match ArgumentOf(line) {
        case Missing =>
        case Argument(item) =>
          var i := FindItem(item);
          if i <= LAST_ITEM && location[i] == here {
            var j := 0;
            while j < MAXITEMS && inventory[j] != 0
              invariant j <= MAXITEMS && EmptySlot(inventory[..], j) == EmptySlot(inventory[..], 0)
            {
              j := j + 1;
            }
            if j < MAXITEMS {
              inventory[j] := i;
              location[i] := 0;
              turns := After(turns);
            }
          }
      }
    }

    method DoGo(line: string)
      requires Valid()
      modifies this`here, this`turns
      ensures Valid() && Current() == Go(old(Current()), line)
    {
      hide Exits;
      var dir := DirectionOf(line);
      if dir == 6 {
        return;
      }
      var to := Exits(here)[dir];
      if here == MASTER_BEDROOM && dir == 0 {
        to := bookcase;
      } else if here == VACANT_ROOM && dir == 0 {
        to := door;
      }
      if to == 0 {
        return;
      }
      here := to;
      turns := After(turns);
    }

    method DoExamine(line: string)
      requires Valid()
      modifies this`bookcase, this`turns
      ensures Valid() && Current() == Examine(old(Current()), line)
    {
      match ArgumentOf(line) {
        case Missing =>
        case Argument(item) =>
          turns := After(turns);
          if item == "BOOKCASE" {
            bookcase := SERVANTS_QUARTERS;
          }
      }
    }

    /** The part of `doUse` for what can be eaten, drunk or filled. */
    method DoUseSupplies(item: string)
      requires Valid()
      modifies this`lampFilled, this`lampLit, this`ateFood, this`drankWater, this`over
      ensures Valid() && Current() == UseSupplies(old(Current()), item)
    {
      hide Named, Name, SlotOf, Shaped;
      if Named(item, OIL) {
        var slot := FindSlot(Name(LAMP));
        if slot < MAXITEMS {
          lampFilled := true;
        }
      } else if Named(item, MATCHES) {
        var slot := FindSlot(Name(LAMP));
        if slot < MAXITEMS {
          if lampFilled {
            lampLit := true;
          }
        }
      } else if Named(item, CANDYBAR) {
        ateFood := true;
      } else if Named(item, BOTTLE) {
        if here == CISTERN {
          drankWater := true;
        }
      } else if Named(item, STALE_MEAT) {
        over := true;
      }
    }

    method DoUse(line: string)
      requires Valid()
      modifies this`turns, this`door, this`wolfState, this`lampFilled, this`lampLit, this`ateFood, this`drankWater,
               this`over
      ensures Valid() && Current() == Use(old(Current()), line)
    {
      hide Named, Name, AtHand, Shaped, UseSupplies;
      match ArgumentOf(line) {
        case Missing =>
        case Argument(item) =>
          var near := IsAtHand(item);
          if near {
            turns := After(turns);
            if Named(item, KEY) && here == VACANT_ROOM {
              door := TUNNEL;
            } else if Named(item, PITCHFORK) && here == WOLF_TREE && wolfState == 0 {
              wolfState := 1;
            } else if Named(item, TOY_CAR) && here == WOLF_TREE && wolfState == 1 {
              wolfState := 2;
            } else {
              DoUseSupplies(item);
            }
          }
      }
    }

    /** `doActions` */
    method DoActions()
      requires Valid()
      modifies this`ratAttack, this`over
      ensures Valid() && Current() == Actions(old(Current()))
    {
      hide Name, SlotOf, ItemOf, Shaped;
      var lamp := IsAtHand(Name(LAMP));
      if turns >= 60 && (!lampLit || !lamp) {
        over := true;
        return;
      }
      if turns == 50 && !drankWater {
        over := true;
        return;
      }
      if turns == 40 && !ateFood {
        over := true;
        return;
      }
      if here == TUNNEL {
        var cheese := FindItem(Name(CHEESE));
        if !(cheese <= LAST_ITEM && location[cheese] == here) {
          if ratAttack < 3 {
            ratAttack := ratAttack + 1;
          } else {
            over := true;
            return;
          }
        }
      }
      if here == WOLF_TREE && wolfState == 2 {
        over := true;
      }
    }

    /** One turn of the main loop. */
    method TakeTurn(line: Line)
      requires Valid()
      modifies this, inventory, location
      ensures Valid() && Current() == Turn(old(Current()), line.text, line.quit)
    {
      hide Drop, Take, Go, Examine, Use, Actions, VerbOf, Shaped;
      match VerbOf(line.text) {
        case Going => DoGo(line.text);
        case Taking => DoTake(line.text);
        case Examining => DoExamine(line.text);
        case Using => DoUse(line.text);
        case Dropping => DoDrop(line.text);
        case Quitting =>
          if line.quit {
            over := true;
          }
        case Looking =>
      }
      DoActions();
    }

    /** The main loop of a game, over the lines that are typed. */
    method Play(lines: seq<Line>)
      requires Valid() && Current() == Initial()
      modifies this, inventory, location
      ensures Valid() && Current() == Played(lines)
      ensures Conserved(inventory[..], location[..]) && Gated(here, bookcase, door)
    {
      hide Turn, Initial, Shaped, Conserved;
      var i := 0;
      assert lines[..0] == [];
      while i < |lines|
        invariant i <= |lines| && Valid() && Current() == Played(lines[..i])
      {
        assert lines[..i + 1][..i] == lines[..i];
        if !over {
          TakeTurn(lines[i]);
        }
        i := i + 1;
      }
      assert lines[..i] == lines;
      EveryGame(lines);
    }
  }
}
