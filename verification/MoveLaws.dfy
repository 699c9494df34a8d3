/**
 What a move keeps. A move from a tile conserves everything the world holds; a move out of a
 slot or a container does so exactly when nothing is written over on the way and, should the
 target refuse, the place it came from takes the item back.
 */
module MoveLaws {
  import opened Wrappers
  import opened Positions
  import opened Items
  import opened Inventories
  import opened GameMaps
  import opened Ledgers
  import opened Scenes
  import opened ItemMovement
  import opened Moves

  // ---------------------------------------------------------------- the balance

  lemma FreeingBalances(d: Scene, k: AgentKey, slot: InventorySlot, item: Item)
    requires IsPlayerOf(d.agents, k) && Unique(HeldTally(BagOf(d.agents, k)))
    ensures var freed := WithSlots(d, k, HandsFreed(BagOf(d.agents, k), slot, item).1);
            SceneTally(freed) == SceneTally(d) && IsPlayerOf(freed.agents, k)
  {
    HandsFreedKeepsTheRest(BagOf(d.agents, k), slot, item);
    BagRearranged(d, k, HandsFreed(BagOf(d.agents, k), slot, item).1);
  }

  lemma RoomMadeBalances(sc: Scene, k: AgentKey, slot: InventorySlot, item: Item, source: ItemPlacement, feet: Position)
    requires IsPlayerOf(sc.agents, k) && feet in sc.tiles && Unique(SceneTally(sc))
    ensures var room := RoomMade(sc, k, slot, item, source, feet).1;
            && SceneTally(room) + LostAside(sc, k, slot, source) == SceneTally(sc)
            && Unique(SceneTally(room)) && IsPlayerOf(room.agents, k)
  {
    var d := Dislodged(sc, k, slot, source, feet);
    DislodgedKeeps(sc, k, slot, source, feet);
    BagIsUnique(d, k);
    FreeingBalances(d, k, slot, item);
  }

  // What placing an item writes over: at the source, with what was worn, and at the target.
  ghost function LostPlacing(sc: Scene, k: AgentKey, to: ItemPlacement, item: Item, source: ItemPlacement,
                             feet: Position)
    : multiset<Token>
    requires IsPlayerOf(sc.agents, k) && feet in sc.tiles && Unique(SceneTally(sc))
  {
    if !to.InInventory? then multiset{}
    else
      LostAside(sc, k, to.slot, source)
      + (if Placed(sc, k, to, item, source, feet).0
         then Overwritten(RoomMade(sc, k, to.slot, item, source, feet).1, to) else multiset{})
  }

  // What putting it back loses: the item itself, or what it is put over.
  ghost function LostReturning(p: Scene, item: Item, source: ItemPlacement): multiset<Token> {
    if Takes(p, source, item) then Overwritten(p, source) else Tally(item)
  }

  ghost function Lost(sc: Scene, k: AgentKey, to: ItemPlacement, item: Item, source: ItemPlacement, feet: Position)
    : multiset<Token>
    requires IsPlayerOf(sc.agents, k) && feet in sc.tiles && Unique(SceneTally(sc))
  {
    var (ok, p) := Placed(sc, k, to, item, source, feet);
    LostPlacing(sc, k, to, item, source, feet) + (if ok then multiset{} else LostReturning(p, item, source))
  }

  lemma {:induction false} PlacedBalances(sc: Scene, k: AgentKey, to: ItemPlacement, item: Item,
                                          source: ItemPlacement, feet: Position)
    requires IsPlayerOf(sc.agents, k) && feet in sc.tiles && Unique(SceneTally(sc))
    ensures var (ok, p) := Placed(sc, k, to, item, source, feet);
            SceneTally(p) + LostPlacing(sc, k, to, item, source, feet)
            == SceneTally(sc) + if ok then Tally(item) else multiset{}
  {
    if to.InInventory? {
      var (ok, room) := RoomMade(sc, k, to.slot, item, source, feet);
      RoomMadeBalances(sc, k, to.slot, item, source, feet);
      if ok && Takes(room, to, item) { WearingBalances(sc, k, to, item, source, room); }
    } else if Takes(sc, to, item) {
      InsertingBalances(sc, to, None, item);
    }
  }

  lemma WearingBalances(sc: Scene, k: AgentKey, to: ItemPlacement, item: Item, source: ItemPlacement, room: Scene)
    requires IsPlayerOf(sc.agents, k) && to.InInventory? && Takes(room, to, item)
    requires SceneTally(room) + LostAside(sc, k, to.slot, source) == SceneTally(sc)
    ensures SceneTally(Inserted(room, to, None, item)) + (LostAside(sc, k, to.slot, source) + Overwritten(room, to))
            == SceneTally(sc) + Tally(item)
  {
    InsertingBalances(room, to, None, item);
    LossesAdd(SceneTally(Inserted(room, to, None, item)), Overwritten(room, to), SceneTally(room), Tally(item),
              LostAside(sc, k, to.slot, source), SceneTally(sc));
  }

  lemma LossesAdd(after: multiset<Token>, over: multiset<Token>, room: multiset<Token>, item: multiset<Token>,
                  aside: multiset<Token>, before: multiset<Token>)
    requires after + over == room + item && room + aside == before
    ensures after + (aside + over) == before + item
  {
    forall t ensures (after + (aside + over))[t] == (before + item)[t] {
      assert (after + over)[t] == (room + item)[t] && (room + aside)[t] == before[t];
    }
  }

  ghost function PutBackAt(p: Scene, item: Item, source: ItemPlacement, index: Option<nat>): Scene {
    if Takes(p, source, item) && IndexOk(p, source, index) then Inserted(p, source, index, item) else p
  }

  lemma {:induction false} ReturningBalances(p: Scene, item: Item, source: ItemPlacement, index: Option<nat>)
    requires IndexOk(p, source, index)
    ensures SceneTally(PutBackAt(p, item, source, index)) + LostReturning(p, item, source)
            == SceneTally(p) + Tally(item)
  {
    if Takes(p, source, item) { InsertingBalances(p, source, index, item); }
  }

  lemma {:induction false} SettledBalances(sc: Scene, k: AgentKey, to: ItemPlacement, item: Item, source: ItemPlacement,
                                           index: Option<nat>, feet: Position)
    requires IsPlayerOf(sc.agents, k) && feet in sc.tiles && Unique(SceneTally(sc))
    requires ReturnOk(sc, k, to, item, source, index, feet)
    ensures SceneTally(Settled(sc, k, to, item, source, index, feet).1) + Lost(sc, k, to, item, source, feet)
            == SceneTally(sc) + Tally(item)
  {
    var (ok, p) := Placed(sc, k, to, item, source, feet);
    var lost := LostPlacing(sc, k, to, item, source, feet);
    PlacedBalances(sc, k, to, item, source, feet);
    if ok {
      NothingLostTwice(SceneTally(p), lost, SceneTally(sc) + Tally(item));
    } else {
      ReturningBalances(p, item, source, index);
      NothingGained(SceneTally(p) + lost, SceneTally(sc));
      LossesAdd(SceneTally(PutBackAt(p, item, source, index)), LostReturning(p, item, source), SceneTally(p),
                Tally(item), lost, SceneTally(sc));
    }
  }

  lemma {:induction false} NothingLostTwice(a: multiset<Token>, b: multiset<Token>, c: multiset<Token>)
    requires a + b == c
    ensures a + (b + multiset{}) == c
  {
    assert b + multiset{} == b;
  }

  lemma {:induction false} NothingGained(a: multiset<Token>, b: multiset<Token>)
    requires a == b + multiset{}
    ensures a == b
  {
    assert b + multiset{} == b;
  }

  // A move the rules let begin.
  ghost predicate Begins(sc: Scene, k: AgentKey, source: ItemPlacement, guid: Guid, amount: U8,
                         to: ItemPlacement, newName: Guid, feet: Position) {
    && IsPlayerOf(sc.agents, k) && feet in sc.tiles && Named(sc, newName)
    && WellAddressed(sc, k, source, guid, amount, to, newName)
    && MayBegin(sc, feet, source, guid, amount, to)
    && CanTake(sc, source, guid, amount, newName)
  }

  // The names and units a move cannot account for.
  ghost function LostBy(sc: Scene, k: AgentKey, source: ItemPlacement, guid: Guid, amount: U8,
                        to: ItemPlacement, newName: Guid, feet: Position): multiset<Token>
    requires Begins(sc, k, source, guid, amount, to, newName, feet)
  {
    MoveIsOk(sc, k, source, guid, amount, to, newName, feet);
    Lost(Removed(sc, source, guid, amount, newName), k, to, TakenOf(sc, source, guid, amount, newName).removed,
         source, feet)
  }

  // From whatever source to whatever target, done or refused: the world holds afterwards
  // what it held before and the name of a split stack, less exactly what is lost; names stay
  // unique; and an item that was moved rests at its target.
  lemma MoveBalances(sc: Scene, k: AgentKey, source: ItemPlacement, guid: Guid, amount: U8,
                     to: ItemPlacement, newName: Guid, feet: Position)
    requires Begins(sc, k, source, guid, amount, to, newName, feet)
    ensures var (ok, after) := AfterMove(sc, k, source, guid, amount, to, newName, feet);
            var x := TakenOf(sc, source, guid, amount, newName).removed;
            && SceneTally(after) + LostBy(sc, k, source, guid, amount, to, newName, feet)
               == SceneTally(sc) + Minted(x, newName)
            && Unique(SceneTally(after))
            && (ok ==> Rests(after, to, x))
  {
    var sc1 := Removed(sc, source, guid, amount, newName);
    var x := TakenOf(sc, source, guid, amount, newName).removed;
    var lost := LostBy(sc, k, source, guid, amount, to, newName, feet);
    MoveIsOk(sc, k, source, guid, amount, to, newName, feet);
    TakingBalances(sc, source, guid, amount, newName);
    RemovedIsUnique(sc, source, guid, amount, newName);
    SettledBalances(sc1, k, to, x, source, PlaceTaken(sc, source, guid, amount, newName), feet);
    UniquePart(SceneTally(AfterMove(sc, k, source, guid, amount, to, newName, feet).1), SceneTally(sc1) + Tally(x));
    PlacedRests(sc1, k, to, x, source, feet);
  }

  lemma PlacedRests(sc: Scene, k: AgentKey, to: ItemPlacement, item: Item, source: ItemPlacement, feet: Position)
    requires IsPlayerOf(sc.agents, k) && feet in sc.tiles && Unique(SceneTally(sc))
    ensures var (ok, p) := Placed(sc, k, to, item, source, feet); ok ==> Rests(p, to, item)
  {
    if Placed(sc, k, to, item, source, feet).0 {
      if to.InInventory? {
        RoomMadeBalances(sc, k, to.slot, item, source, feet);
        InsertingRests(RoomMade(sc, k, to.slot, item, source, feet).1, to, None, item);
      } else {
        InsertingRests(sc, to, None, item);
      }
    }
  }

  // ---------------------------------------------------------------- when nothing is lost

  ghost predicate TakesBack(sc: Scene, k: AgentKey, source: ItemPlacement, item: Item)
    requires IsPlayerOf(sc.agents, k)
  {
    Takes(sc, source, item) && (source.InInventory? ==> source.slot !in BagOf(sc.agents, k))
  }

  // What was worn goes over what the source slot still holds, unless the player carries too
  // much for it to go anywhere but on the floor.
  ghost predicate WritesOver(sc: Scene, k: AgentKey, slot: InventorySlot, source: ItemPlacement)
    requires IsPlayerOf(sc.agents, k)
  {
    && source.InInventory? && source.slot != slot
    && slot in BagOf(sc.agents, k) && source.slot in BagOf(sc.agents, k)
    && CanCarry(sc.agents, k, 0)
  }

  // The hands can be freed, and the player can carry the item.
  ghost predicate CanWear(sc: Scene, k: AgentKey, slot: InventorySlot, item: Item)
    requires IsPlayerOf(sc.agents, k)
  {
    && (HandsAreFree(BagOf(sc.agents, k), slot, item) || BackpackHasRoom(BagOf(sc.agents, k)))
    && CanCarry(sc.agents, k, TotalWeight(item))
  }

  ghost predicate WornOrTakenBack(sc: Scene, k: AgentKey, slot: InventorySlot, item: Item, source: ItemPlacement)
    requires IsPlayerOf(sc.agents, k)
  {
    if CanWear(sc, k, slot, item) then slot !in BagOf(sc.agents, k) else TakesBack(sc, k, source, item)
  }

  // `sc` is the scene the item has been taken out of. Where the target is a slot, what is
  // worn there first changes places with the item.
  ghost predicate LosesNothing(sc: Scene, k: AgentKey, to: ItemPlacement, item: Item, source: ItemPlacement,
                               feet: Position)
    requires IsPlayerOf(sc.agents, k) && feet in sc.tiles
  {
    if !to.InInventory? then Takes(sc, to, item) || TakesBack(sc, k, source, item)
    else
      var swapped := Dislodged(sc, k, to.slot, source, feet);
      DislodgedKeeps(sc, k, to.slot, source, feet);
      !WritesOver(sc, k, to.slot, source) && WornOrTakenBack(swapped, k, to.slot, item, source)
  }

  lemma SlotIsLostIff(slots: Slots, s: InventorySlot)
    ensures SlotTally(slots, s) == multiset{} <==> s !in slots
  {
    if s in slots { assert Name(slots[s].guid) in Tally(slots[s]); }
  }

  lemma ItemIsSomething(item: Item)
    ensures Tally(item) != multiset{}
  {
    assert Name(item.guid) in Tally(item);
  }

  // What is taken off can be carried as long as the player carries no more than it may.
  lemma EmptiedCarries(sc: Scene, k: AgentKey, slot: InventorySlot)
    requires IsPlayerOf(sc.agents, k) && slot in BagOf(sc.agents, k)
    ensures var emptied := WithSlots(sc, k, BagOf(sc.agents, k) - {slot});
            && IsPlayerOf(emptied.agents, k) && BagOf(emptied.agents, k) == BagOf(sc.agents, k) - {slot}
            && (CanCarry(emptied.agents, k, TotalWeight(BagOf(sc.agents, k)[slot])) <==> CanCarry(sc.agents, k, 0))
  {
    BagWritten(sc.agents, k, BagOf(sc.agents, k) - {slot});
    SlotEmptied(BagOf(sc.agents, k), slot);
  }

  lemma WritesOverIff(sc: Scene, k: AgentKey, slot: InventorySlot, source: ItemPlacement)
    requires IsPlayerOf(sc.agents, k) && (Site(source).Slot? ==> Site(source).agent == k)
    ensures LostAside(sc, k, slot, source) == multiset{} <==> !WritesOver(sc, k, slot, source)
  {
    var slots := BagOf(sc.agents, k);
    if slot in slots && source.InInventory? {
      EmptiedCarries(sc, k, slot);
      SlotIsLostIff(slots - {slot}, source.slot);
    }
  }

  lemma ReturnLosesNothingIff(sc: Scene, k: AgentKey, source: ItemPlacement, item: Item)
    requires IsPlayerOf(sc.agents, k) && (Site(source).Slot? ==> Site(source).agent == k)
    ensures LostReturning(sc, item, source) == multiset{} <==> TakesBack(sc, k, source, item)
  {
    ItemIsSomething(item);
    if source.InInventory? { SlotIsLostIff(BagOf(sc.agents, k), source.slot); }
  }

  lemma FreeingKeepsTheWeight(d: Scene, k: AgentKey, slot: InventorySlot, item: Item)
    requires IsPlayerOf(d.agents, k) && Unique(HeldTally(BagOf(d.agents, k)))
    ensures var (ok, slots) := HandsFreed(BagOf(d.agents, k), slot, item);
            && TotalCarried(slots) == TotalCarried(BagOf(d.agents, k))
            && (CanCarry(WithSlots(d, k, slots).agents, k, TotalWeight(item)) <==>
                CanCarry(d.agents, k, TotalWeight(item)))
  {
    var bag := BagOf(d.agents, k);
    HandsFreedKeepsTheRest(bag, slot, item);
    CarriedIsTallied(bag);
    CarriedIsTallied(HandsFreed(bag, slot, item).1);
  }

  // Freeing the hands changes neither the weight carried nor whether the slot is empty, and
  // nothing at all when it fails.
  lemma RoomIsTheSwap(d: Scene, k: AgentKey, slot: InventorySlot, item: Item, source: ItemPlacement)
    requires IsPlayerOf(d.agents, k) && Unique(HeldTally(BagOf(d.agents, k))) && FitsSlot(item, slot)
    requires Site(source).Slot? ==> Site(source).agent == k
    ensures var (ok, slots) := HandsFreed(BagOf(d.agents, k), slot, item);
            var room := WithSlots(d, k, slots);
            && IsPlayerOf(room.agents, k)
            && (ok && CanCarry(room.agents, k, TotalWeight(item)) <==> CanWear(d, k, slot, item))
            && (slot in BagOf(room.agents, k) <==> slot in BagOf(d.agents, k))
            && (!CanWear(d, k, slot, item) ==> (TakesBack(room, k, source, item) <==> TakesBack(d, k, source, item)))
  {
    var bag := BagOf(d.agents, k);
    var (ok, slots) := HandsFreed(bag, slot, item);
    FreeingKeepsTheWeight(d, k, slot, item);
    HandsCanBeFreedIff(bag, slot, item);
    BagWritten(d.agents, k, slots);
    if !ok { SameBag(d.agents, k); }
  }

  lemma BothEmpty(a: multiset<Token>, b: multiset<Token>)
    ensures a + b == multiset{} <==> a == multiset{} && b == multiset{}
  {
    if a + b == multiset{} {
      assert forall t :: a[t] <= (a + b)[t] && b[t] <= (a + b)[t];
    }
  }

  // Placing an item in a slot: the room made for it, and the item in it if it can be worn.
  lemma {:induction false} EquipPlaces(sc: Scene, k: AgentKey, slot: InventorySlot, item: Item, source: ItemPlacement,
                                       feet: Position)
    requires IsPlayerOf(sc.agents, k) && feet in sc.tiles && Unique(SceneTally(sc)) && FitsSlot(item, slot)
    requires Site(source).Slot? ==> Site(source).agent == k
    ensures var d := Dislodged(sc, k, slot, source, feet);
            var room := RoomMade(sc, k, slot, item, source, feet).1;
            var (ok, p) := Placed(sc, k, InInventory(slot, k), item, source, feet);
            && IsPlayerOf(d.agents, k) && IsPlayerOf(room.agents, k)
            && (ok <==> CanWear(d, k, slot, item)) && (!ok ==> p == room)
            && (slot in BagOf(room.agents, k) <==> slot in BagOf(d.agents, k))
            && (!ok ==> (TakesBack(room, k, source, item) <==> TakesBack(d, k, source, item)))
  {
    var d := Dislodged(sc, k, slot, source, feet);
    DislodgedKeeps(sc, k, slot, source, feet);
    BagIsUnique(d, k);
    RoomIsTheSwap(d, k, slot, item, source);
  }

  lemma {:induction false} EquipLosesNothingIff(sc: Scene, k: AgentKey, slot: InventorySlot, item: Item,
                                                source: ItemPlacement, feet: Position)
    requires IsPlayerOf(sc.agents, k) && feet in sc.tiles && Unique(SceneTally(sc)) && FitsSlot(item, slot)
    requires Site(source).Slot? ==> Site(source).agent == k
    ensures Lost(sc, k, InInventory(slot, k), item, source, feet) == multiset{}
            <==> LosesNothing(sc, k, InInventory(slot, k), item, source, feet)
  {
    var to := InInventory(slot, k);
    DislodgedKeeps(sc, k, slot, source, feet);
    EquipPlaces(sc, k, slot, item, source, feet);
    var room := RoomMade(sc, k, slot, item, source, feet).1;
    var ok := Placed(sc, k, to, item, source, feet).0;
    var (aside, over) := (LostAside(sc, k, slot, source), if ok then Overwritten(room, to) else multiset{});
    var back := if ok then multiset{} else LostReturning(room, item, source);
    BothEmpty(aside + over, back);
    BothEmpty(aside, over);
    WritesOverIff(sc, k, slot, source);
    SlotIsLostIff(BagOf(room.agents, k), slot);
    ReturnLosesNothingIff(room, k, source, item);
  }

  lemma NothingIsLostIff(sc: Scene, k: AgentKey, to: ItemPlacement, item: Item, source: ItemPlacement, feet: Position)
    requires IsPlayerOf(sc.agents, k) && feet in sc.tiles && Unique(SceneTally(sc))
    requires (Site(source).Slot? ==> Site(source).agent == k) && (Site(to).Slot? ==> Site(to).agent == k)
    requires to.InInventory? ==> FitsSlot(item, to.slot)
    ensures Lost(sc, k, to, item, source, feet) == multiset{} <==> LosesNothing(sc, k, to, item, source, feet)
  {
    if to.InInventory? {
      EquipLosesNothingIff(sc, k, to.slot, item, source, feet);
    } else {
      BothEmpty(multiset{}, LostReturning(sc, item, source));
      ReturnLosesNothingIff(sc, k, source, item);
    }
  }

  // A move conserves what the world holds exactly when nothing is written over and, where the
  // target refuses, the source takes the item back.
  lemma MoveConservesIff(sc: Scene, k: AgentKey, source: ItemPlacement, guid: Guid, amount: U8,
                         to: ItemPlacement, newName: Guid, feet: Position)
    requires Begins(sc, k, source, guid, amount, to, newName, feet)
    ensures var (sc1, x) := (Removed(sc, source, guid, amount, newName),
                             TakenOf(sc, source, guid, amount, newName).removed);
            && IsPlayerOf(sc1.agents, k) && feet in sc1.tiles
            && (Conserved(sc, k, source, guid, amount, to, newName, feet) <==>
                LosesNothing(sc1, k, to, x, source, feet))
  {
    var sc1 := Removed(sc, source, guid, amount, newName);
    var x := TakenOf(sc, source, guid, amount, newName).removed;
    MoveIsOk(sc, k, source, guid, amount, to, newName, feet);
    BegunIsFound(sc, feet, source, guid, amount, to, newName);
    MoveBalances(sc, k, source, guid, amount, to, newName, feet);
    NothingIsLostIff(sc1, k, to, x, source, feet);
    LossShows(SceneTally(AfterMove(sc, k, source, guid, amount, to, newName, feet).1),
              LostBy(sc, k, source, guid, amount, to, newName, feet), SceneTally(sc) + Minted(x, newName));
  }

  ghost predicate Conserved(sc: Scene, k: AgentKey, source: ItemPlacement, guid: Guid, amount: U8, to: ItemPlacement,
                            newName: Guid, feet: Position)
    requires IsPlayerOf(sc.agents, k) && WearsSlotted(BagOf(sc.agents, k)) && feet in sc.tiles && Named(sc, newName)
    requires CanTake(sc, source, guid, amount, newName)
  {
    SceneTally(AfterMove(sc, k, source, guid, amount, to, newName, feet).1)
    == SceneTally(sc) + Minted(TakenOf(sc, source, guid, amount, newName).removed, newName)
  }

  lemma LossShows(after: multiset<Token>, lost: multiset<Token>, all: multiset<Token>)
    requires after + lost == all
    ensures after == all <==> lost == multiset{}
  {
    if after == all {
      forall t ensures lost[t] == 0 { assert (after + lost)[t] == all[t]; }
      assert lost == multiset{};
    }
  }

  // ---------------------------------------------------------------- by source

  // A tile takes everything, so moves from tiles conserve what the world holds, whatever the
  // target and whatever becomes of them.
  lemma {:induction false} MovesFromTilesConserve(sc: Scene, k: AgentKey, source: ItemPlacement,
                                                  guid: Guid, amount: U8, to: ItemPlacement, newName: Guid,
                                                  feet: Position)
    requires Begins(sc, k, source, guid, amount, to, newName, feet) && source.OnMap?
    ensures Conserved(sc, k, source, guid, amount, to, newName, feet)
  {
    MoveConservesIff(sc, k, source, guid, amount, to, newName, feet);
    RemovedKeeps(sc, k, source, guid, amount, newName);
    TilesLoseNothing(Removed(sc, source, guid, amount, newName), k, to,
                     TakenOf(sc, source, guid, amount, newName).removed, source, feet);
  }

  lemma TilesLoseNothing(sc: Scene, k: AgentKey, to: ItemPlacement, item: Item, source: ItemPlacement, feet: Position)
    requires IsPlayerOf(sc.agents, k) && feet in sc.tiles && source.OnMap? && source.pos in sc.tiles
    ensures LosesNothing(sc, k, to, item, source, feet)
  {
    if to.InInventory? { TilesTakeWhatIsWorn(sc, k, to.slot, source, feet); }
  }

  lemma TilesTakeWhatIsWorn(sc: Scene, k: AgentKey, slot: InventorySlot, source: ItemPlacement, feet: Position)
    requires IsPlayerOf(sc.agents, k) && feet in sc.tiles && source.OnMap? && source.pos in sc.tiles
    ensures var d := Dislodged(sc, k, slot, source, feet);
            && IsPlayerOf(d.agents, k) && BagOf(d.agents, k) == BagOf(sc.agents, k) - {slot}
            && source.pos in d.tiles
  {
    SlotEmptied(BagOf(sc.agents, k), slot);
    BagWritten(sc.agents, k, BagOf(sc.agents, k) - {slot});
  }

  // Whether the place an item came from takes it back, by what is there before the move: a
  // slot, when its whole item was taken; a container, when the whole item was taken from it
  // or it still has room; either, when the player carries no more than it may.
  ghost predicate Restorable(sc: Scene, k: AgentKey, source: ItemPlacement, guid: Guid, amount: U8)
    requires IsPlayerOf(sc.agents, k)
  {
    && (Site(source).Slot? ==> CanCarry(sc.agents, k, 0))
    && match source
       case OnMap(_) => true
       case InInventory(s, _) =>
         s in BagOf(sc.agents, k) && BagOf(sc.agents, k)[s].guid == guid && BagOf(sc.agents, k)[s].amount == amount
       case InContainer(_, _, i) =>
         && LiesIn(sc, source, guid)
         && var c := ContainerAt(sc, source).value;
            |c.inside| - (if c.inside[i].amount == amount then 1 else 0) < Capacity(c)
  }

  // Whatever the source, and whatever the target but a slot that is taken: a refused move
  // conserves what the world holds exactly when its source is restorable. (One that is not
  // refused always does.)
  lemma {:induction false} RefusedMoveConservesIff(sc: Scene, k: AgentKey, source: ItemPlacement,
                                                   guid: Guid, amount: U8, to: ItemPlacement, newName: Guid,
                                                   feet: Position)
    requires Begins(sc, k, source, guid, amount, to, newName, feet)
    requires to.InInventory? ==> to.slot !in BagOf(sc.agents, k)
    ensures Conserved(sc, k, source, guid, amount, to, newName, feet)
            <==> AfterMove(sc, k, source, guid, amount, to, newName, feet).0 || Restorable(sc, k, source, guid, amount)
  {
    var sc1 := Removed(sc, source, guid, amount, newName);
    var x := TakenOf(sc, source, guid, amount, newName).removed;
    MoveConservesIff(sc, k, source, guid, amount, to, newName, feet);
    BegunIsFound(sc, feet, source, guid, amount, to, newName);
    if !to.OnMap? {
      TakesBackIff(sc, k, source, guid, amount, newName);
      if to.InInventory? {
        TakingFillsNoSlot(sc, k, source, guid, amount, newName);
        RemovedIsUnique(sc, source, guid, amount, newName);
        EquipPlaces(sc1, k, to.slot, x, source, feet);
      }
    }
  }

  // What a source is like after the taking, by what it is like before.
  lemma TakesBackIff(sc: Scene, k: AgentKey, p: ItemPlacement, g: Guid, amount: U8, newName: Guid)
    requires CanTake(sc, p, g, amount, newName) && (p.InContainer? ==> LiesIn(sc, p, g)) && SaneSource(sc, p)
    requires IsPlayerOf(sc.agents, k) && (Site(p).Slot? ==> Site(p).agent == k)
    requires Unique(SceneTally(sc)) && Name(newName) !in SceneTally(sc)
    ensures var (sc1, x) := (Removed(sc, p, g, amount, newName), TakenOf(sc, p, g, amount, newName).removed);
            IsPlayerOf(sc1.agents, k) && (TakesBack(sc1, k, p, x) <==> Restorable(sc, k, p, g, amount))
  {
    if Site(p).Slot? { TakenCanBeCarried(sc, k, p, g, amount, newName); }
    match p {
      case OnMap(_) =>
      case InInventory(s, _) => SlotIsEmptyIff(sc, k, s, g, amount, newName);
      case InContainer(_, _, _) => ContainerTakesBackIff(sc, k, p, g, amount, newName);
    }
  }

  lemma TakingFillsNoSlot(sc: Scene, k: AgentKey, p: ItemPlacement, g: Guid, amount: U8, newName: Guid)
    requires CanTake(sc, p, g, amount, newName) && IsPlayerOf(sc.agents, k)
    ensures var sc1 := Removed(sc, p, g, amount, newName);
            IsPlayerOf(sc1.agents, k) && BagOf(sc1.agents, k).Keys <= BagOf(sc.agents, k).Keys
  {
    if Site(p).Slot? && Site(p).agent == k {
      BagWritten(sc.agents, k, Drawn(BagOf(sc.agents, k), Site(p).slot, g, amount, newName));
    }
  }

  lemma TakenCanBeCarried(sc: Scene, k: AgentKey, p: ItemPlacement, g: Guid, amount: U8, newName: Guid)
    requires CanTake(sc, p, g, amount, newName) && Site(p).Slot? && Site(p).agent == k
    ensures var (sc1, x) := (Removed(sc, p, g, amount, newName), TakenOf(sc, p, g, amount, newName).removed);
            && IsPlayerOf(sc1.agents, k) && TotalCarried(BagOf(sc1.agents, k)) <= TotalCarried(BagOf(sc.agents, k))
            && (CanCarry(sc1.agents, k, TotalWeight(x)) <==> CanCarry(sc.agents, k, 0))
  {
    var s := Site(p).slot;
    TakenFromSlotWeighs(BagOf(sc.agents, k), s, g, amount, newName);
    BagWritten(sc.agents, k, Drawn(BagOf(sc.agents, k), s, g, amount, newName));
  }

  lemma SlotIsEmptyIff(sc: Scene, k: AgentKey, s: InventorySlot, g: Guid, amount: U8, newName: Guid)
    requires CanTake(sc, InInventory(s, k), g, amount, newName)
    ensures var sc1 := Removed(sc, InInventory(s, k), g, amount, newName);
            && IsPlayerOf(sc1.agents, k)
            && (s !in BagOf(sc1.agents, k)
                <==> BagOf(sc.agents, k)[s].guid == g && BagOf(sc.agents, k)[s].amount == amount)
  {
    TakenFromWhere([BagOf(sc.agents, k)[s]], g, amount, newName);
    BagWritten(sc.agents, k, Drawn(BagOf(sc.agents, k), s, g, amount, newName));
  }

  lemma ContainerTakesBackIff(sc: Scene, k: AgentKey, p: ItemPlacement, g: Guid, amount: U8, newName: Guid)
    requires CanTake(sc, p, g, amount, newName) && p.InContainer? && LiesIn(sc, p, g) && SaneSource(sc, p)
    requires IsPlayerOf(sc.agents, k) && (Site(p).Slot? ==> Site(p).agent == k)
    requires Unique(SceneTally(sc)) && Name(newName) !in SceneTally(sc)
    ensures var (sc1, x) := (Removed(sc, p, g, amount, newName), TakenOf(sc, p, g, amount, newName).removed);
            IsPlayerOf(sc1.agents, k) && (TakesBack(sc1, k, p, x) <==> Restorable(sc, k, p, g, amount))
  {
    var sc1 := Removed(sc, p, g, amount, newName);
    ContainerAfterTaking(sc, p, g, amount, newName);
    RemovedIsUnique(sc, p, g, amount, newName);
    SourceIsUnique(sc1, p);
    if Site(p).Slot? { TakenCanBeCarried(sc, k, p, g, amount, newName); }
    TakesIff(sc1, p, TakenOf(sc, p, g, amount, newName).removed);
  }

  // Moving part of a slot's stack onto that very slot: the rest is taken off, comes back to
  // where the part came from, and is written over - though the move goes through.
  lemma PartOntoItsOwnSlotLosesTheRest(sc: Scene, k: AgentKey, s: InventorySlot, guid: Guid,
                                       amount: U8, newName: Guid, feet: Position)
    requires Begins(sc, k, InInventory(s, k), guid, amount, InInventory(s, k), newName, feet)
    requires CanCarry(sc.agents, k, 0)
    requires !(BagOf(sc.agents, k)[s].guid == guid && BagOf(sc.agents, k)[s].amount == amount)
    ensures !Conserved(sc, k, InInventory(s, k), guid, amount, InInventory(s, k), newName, feet)
  {
    var p := InInventory(s, k);
    var sc1 := Removed(sc, p, guid, amount, newName);
    MoveConservesIff(sc, k, p, guid, amount, p, newName, feet);
    SlotIsEmptyIff(sc, k, s, guid, amount, newName);
    RemovedKeeps(sc, k, p, guid, amount, newName);
    TakenCanBeCarried(sc, k, p, guid, amount, newName);
    EmptiedCarries(sc1, k, s);
    var emptied := WithSlots(sc1, k, BagOf(sc1.agents, k) - {s});
    BagWritten(emptied.agents, k, BagOf(emptied.agents, k)[s := BagOf(sc1.agents, k)[s]]);
  }

  // From one slot to another that is taken: what is worn there goes to the slot the item comes
  // from, so everything is conserved exactly when that slot was emptied and the item can then
  // be worn. If it cannot, it has no place to go back to.
  lemma {:induction false} SwapOfSlotsConservesIff(sc: Scene, k: AgentKey, s: InventorySlot,
                                                   guid: Guid, amount: U8, slot: InventorySlot, newName: Guid,
                                                   feet: Position)
    requires Begins(sc, k, InInventory(s, k), guid, amount, InInventory(slot, k), newName, feet)
    requires slot in BagOf(sc.agents, k) && slot != s && CanCarry(sc.agents, k, 0)
    ensures var (bag, x) := (BagOf(sc.agents, k), TakenOf(sc, InInventory(s, k), guid, amount, newName).removed);
            var swapped := (bag - {slot})[s := bag[slot]];
            Conserved(sc, k, InInventory(s, k), guid, amount, InInventory(slot, k), newName, feet)
            <==> && bag[s].guid == guid && bag[s].amount == amount
                 && (HandsAreFree(swapped, slot, x) || BackpackHasRoom(swapped))
  {
    var source := InInventory(s, k);
    var (bag, x) := (BagOf(sc.agents, k), TakenOf(sc, source, guid, amount, newName).removed);
    var sc1 := Removed(sc, source, guid, amount, newName);
    MoveConservesIff(sc, k, source, guid, amount, InInventory(slot, k), newName, feet);
    SlotIsEmptyIff(sc, k, s, guid, amount, newName);
    TakenCanBeCarried(sc, k, source, guid, amount, newName);
    DrawnElsewhere(sc, k, s, guid, amount, newName, slot);
    SwapLosesNothingIff(sc1, k, s, slot, feet, x);
  }

  lemma DrawnElsewhere(sc: Scene, k: AgentKey, s: InventorySlot, g: Guid, amount: U8, newName: Guid, t: InventorySlot)
    requires CanTake(sc, InInventory(s, k), g, amount, newName) && t in BagOf(sc.agents, k) && t != s
    ensures var (bag, sc1) := (BagOf(sc.agents, k), Removed(sc, InInventory(s, k), g, amount, newName));
            && IsPlayerOf(sc1.agents, k) && t in BagOf(sc1.agents, k)
            && (BagOf(sc1.agents, k) - {t})[s := BagOf(sc1.agents, k)[t]] == (bag - {t})[s := bag[t]]
  {
    var (bag, drawn) := (BagOf(sc.agents, k), Drawn(BagOf(sc.agents, k), s, g, amount, newName));
    BagWritten(sc.agents, k, drawn);
    SwappedAlike(drawn, bag, s, t);
  }

  lemma SwappedAlike(a: Slots, b: Slots, s: InventorySlot, t: InventorySlot)
    requires t in b && s != t && (a == b - {s} || (s in a && a == b[s := a[s]]))
    ensures t in a && (a - {t})[s := a[t]] == (b - {t})[s := b[t]]
  {
  }

  lemma NoWayBack(d: Scene, k: AgentKey, s: InventorySlot, slot: InventorySlot, x: Item)
    requires IsPlayerOf(d.agents, k) && s in BagOf(d.agents, k) && slot !in BagOf(d.agents, k)
    requires CanCarry(d.agents, k, TotalWeight(x))
    ensures WornOrTakenBack(d, k, slot, x, InInventory(s, k))
            <==> HandsAreFree(BagOf(d.agents, k), slot, x) || BackpackHasRoom(BagOf(d.agents, k))
  {
  }

  lemma {:induction false} SwapLosesNothingIff(sc: Scene, k: AgentKey, s: InventorySlot, slot: InventorySlot,
                                               feet: Position, x: Item)
    requires IsPlayerOf(sc.agents, k) && feet in sc.tiles && slot in BagOf(sc.agents, k) && s != slot
    requires CanCarry(sc.agents, k, TotalWeight(x))
    ensures var swapped := (BagOf(sc.agents, k) - {slot})[s := BagOf(sc.agents, k)[slot]];
            LosesNothing(sc, k, InInventory(slot, k), x, InInventory(s, k), feet)
            <==> s !in BagOf(sc.agents, k) && (HandsAreFree(swapped, slot, x) || BackpackHasRoom(swapped))
  {
    DislodgedKeeps(sc, k, slot, InInventory(s, k), feet);
    if s in BagOf(sc.agents, k) {
      assert WritesOver(sc, k, slot, InInventory(s, k));
    } else {
      SlotsSwap(sc, k, s, slot, feet, x);
      NoWayBack(Dislodged(sc, k, slot, InInventory(s, k), feet), k, s, slot, x);
    }
  }

  // What is worn in `slot` goes to the empty slot the item came from.
  lemma {:induction false} SlotsSwap(sc: Scene, k: AgentKey, s: InventorySlot, slot: InventorySlot, feet: Position,
                                     x: Item)
    requires IsPlayerOf(sc.agents, k) && feet in sc.tiles && slot in BagOf(sc.agents, k) && s !in BagOf(sc.agents, k)
    requires CanCarry(sc.agents, k, TotalWeight(x))
    ensures var swapped := (BagOf(sc.agents, k) - {slot})[s := BagOf(sc.agents, k)[slot]];
            && IsPlayerOf(Dislodged(sc, k, slot, InInventory(s, k), feet).agents, k)
            && BagOf(Dislodged(sc, k, slot, InInventory(s, k), feet).agents, k) == swapped
            && CanCarry(Dislodged(sc, k, slot, InInventory(s, k), feet).agents, k, TotalWeight(x))
  {
    var bag := BagOf(sc.agents, k);
    var emptied := WithSlots(sc, k, bag - {slot});
    EmptiedCarries(sc, k, slot);
    SlotEmptied(bag, slot);
    SlotAssigned(bag - {slot}, s, bag[slot]);
    BagWritten(emptied.agents, k, (bag - {slot})[s := bag[slot]]);
  }

  // ---------------------------------------------------------------- a refused move, exactly undone

  // An item lies straight on the tile and is asked for whole.
  predicate IsWhole(items: seq<Item>, guid: Guid, amount: U8) {
    IndexOf(items, guid).Some? && items[IndexOf(items, guid).value].amount == amount
  }

  // Putting back what was taken restores the list exactly when it was a whole item of it: a
  // piece of a stack stays split off, and what was nested comes to lie on the tile.
  lemma PutBackIsExactIff(t: Tiles, pos: Position, guid: Guid, amount: U8, newName: Guid)
    requires pos in t && TakeFrom(t[pos].items, guid, amount, newName).Some?
    ensures var r := TakeFrom(t[pos].items, guid, amount, newName).value;
            var index := if r.parent.None? then Some(r.at) else None;
            && (index.Some? ==> index.value <= |r.rest|)
            && (WithOneMore(WithItems(t, pos, r.rest), pos, index, r.removed) == t
                <==> IsWhole(t[pos].items, guid, amount))
  {
    var items := t[pos].items;
    var r := TakeFrom(items, guid, amount, newName).value;
    TakenFromWhere(items, guid, amount, newName);
    var index := if r.parent.None? then Some(r.at) else None;
    var back := WithOneMore(WithItems(t, pos, r.rest), pos, index, r.removed);
    assert back[pos].items == Spliced(r.rest, if index.Some? then index.value else |r.rest|, r.removed);
    if IsWhole(items, guid, amount) {
      SplitAt(items, IndexOf(items, guid).value);
      assert back == t;
    }
  }

  // A refused move from a tile leaves everything exactly as it was only if the item lay on
  // the tile and was moved whole; and if it was to be worn, only if its slot was free and no
  // hand had to be emptied into the backpack - or none could be.
  lemma RefusalIsExactIff(sc: Scene, k: AgentKey, source: ItemPlacement, guid: Guid, amount: U8,
                          to: ItemPlacement, newName: Guid, feet: Position)
    requires Begins(sc, k, source, guid, amount, to, newName, feet) && source.OnMap?
    requires !AfterMove(sc, k, source, guid, amount, to, newName, feet).0
    ensures var (bag, x) := (BagOf(sc.agents, k), TakenOf(sc, source, guid, amount, newName).removed);
            AfterMove(sc, k, source, guid, amount, to, newName, feet).1 == sc
            <==> && IsWhole(sc.tiles[source.pos].items, guid, amount)
                 && (to.InInventory? ==> to.slot !in bag && (HandsAreFree(bag, to.slot, x) || !BackpackHasRoom(bag)))
  {
    var sc1 := Removed(sc, source, guid, amount, newName);
    var x := TakenOf(sc, source, guid, amount, newName).removed;
    MoveIsOk(sc, k, source, guid, amount, to, newName, feet);
    BegunIsFound(sc, feet, source, guid, amount, to, newName);
    PutBackIsExactIff(sc.tiles, source.pos, guid, amount, newName);
    if to.InInventory? { UndressedIff(sc1, k, to.slot, x, source, feet); }
  }

  // The agents after making room for an item from a tile.
  lemma {:induction false} UndressedIff(sc: Scene, k: AgentKey, slot: InventorySlot, item: Item,
                                        source: ItemPlacement, feet: Position)
    requires IsPlayerOf(sc.agents, k) && feet in sc.tiles && Unique(SceneTally(sc)) && FitsSlot(item, slot)
    requires source.OnMap? && source.pos in sc.tiles
    ensures var (room, bag) := (RoomMade(sc, k, slot, item, source, feet).1, BagOf(sc.agents, k));
            && (slot !in bag ==> room.tiles == sc.tiles)
            && (room.agents == sc.agents <==> slot !in bag && (HandsAreFree(bag, slot, item) || !BackpackHasRoom(bag)))
  {
    var bag := BagOf(sc.agents, k);
    var d := Dislodged(sc, k, slot, source, feet);
    TilesTakeWhatIsWorn(sc, k, slot, source, feet);
    DislodgedKeeps(sc, k, slot, source, feet);
    BagIsUnique(d, k);
    HandsCanBeFreedIff(bag - {slot}, slot, item);
    var freed := HandsFreed(bag - {slot}, slot, item).1;
    BagWritten(d.agents, k, freed);
    if slot in bag {
      assert slot !in freed;
    } else {
      SameBag(sc.agents, k);
      assert bag - {slot} == bag;
    }
  }

  // ---------------------------------------------------------------- fixtures

  // The check for fixtures looks at the item its placement singles out, the taking searches the
  // whole tile or slot: so a fixture is moved only out of a container, by an index that is not
  // its own, and onto a tile.
  lemma FixturesStay(sc: Scene, k: AgentKey, source: ItemPlacement, guid: Guid, amount: U8, to: ItemPlacement,
                     newName: Guid, feet: Position)
    requires Begins(sc, k, source, guid, amount, to, newName, feet)
    requires Unmove in TakenOf(sc, source, guid, amount, newName).removed.config.flags
    ensures source.InContainer? && to.OnMap? && NamedAt(sc, source, guid).None?
  {
    TakenIsFound(sc, source, guid, amount, newName);
    if NamedAt(sc, source, guid).Some? { NamedIsAtSite(sc, source, guid); }
  }

  // ---------------------------------------------------------------- the hands

  // Moves never put a two-handed weapon beside anything but the quiver to its bow.
  lemma MoveKeepsHandsLegal(sc: Scene, k: AgentKey, source: ItemPlacement, guid: Guid, amount: U8,
                            to: ItemPlacement, newName: Guid, feet: Position)
    requires Begins(sc, k, source, guid, amount, to, newName, feet) && !source.InInventory?
    requires HandsAreLegal(BagOf(sc.agents, k))
    ensures var after := AfterMove(sc, k, source, guid, amount, to, newName, feet).1;
            IsPlayerOf(after.agents, k) && HandsAreLegal(BagOf(after.agents, k))
  {
    var sc1 := Removed(sc, source, guid, amount, newName);
    var x := TakenOf(sc, source, guid, amount, newName).removed;
    MoveIsOk(sc, k, source, guid, amount, to, newName, feet);
    BegunIsFound(sc, feet, source, guid, amount, to, newName);
    RemovedIsLegal(sc, k, source, guid, amount, newName);
    PlacedIsLegal(sc1, k, to, x, source, feet);
    var (ok, p) := Placed(sc1, k, to, x, source, feet);
    if !ok && Takes(p, source, x) { InsertedIsLegal(p, k, source, PlaceTaken(sc, source, guid, amount, newName), x); }
  }

  // The same slots hold things of the same kind, some of them perhaps nothing any more.
  ghost predicate SameKinds(before: Slots, after: Slots) {
    forall s :: s in after ==> s in before && after[s].config == before[s].config
  }

  lemma RemovedIsLegal(sc: Scene, k: AgentKey, p: ItemPlacement, g: Guid, amount: U8, newName: Guid)
    requires CanTake(sc, p, g, amount, newName) && IsPlayerOf(sc.agents, k) && HandsAreLegal(BagOf(sc.agents, k))
    ensures var sc1 := Removed(sc, p, g, amount, newName);
            IsPlayerOf(sc1.agents, k) && SameKinds(BagOf(sc.agents, k), BagOf(sc1.agents, k))
            && HandsAreLegal(BagOf(sc1.agents, k))
  {
    if Site(p).Slot? {
      var (s, j) := (Site(p).slot, Site(p).agent);
      TakeKeepsTheOuter(BagOf(sc.agents, j)[s], g, amount, newName);
      BagWritten(sc.agents, j, Drawn(BagOf(sc.agents, j), s, g, amount, newName));
    }
  }

  lemma InsertedIsLegal(sc: Scene, k: AgentKey, p: ItemPlacement, index: Option<nat>, item: Item)
    requires IsPlayerOf(sc.agents, k) && Takes(sc, p, item) && IndexOk(sc, p, index) && !p.InInventory?
    requires HandsAreLegal(BagOf(sc.agents, k))
    ensures var after := Inserted(sc, p, index, item);
            IsPlayerOf(after.agents, k) && SameKinds(BagOf(sc.agents, k), BagOf(after.agents, k))
            && HandsAreLegal(BagOf(after.agents, k))
  {
    if Site(p).Slot? {
      var (s, j) := (Site(p).slot, Site(p).agent);
      PutKeepsTheOuter(BagOf(sc.agents, j)[s], p.guid, p.index, item);
      BagWritten(sc.agents, j, Packed(BagOf(sc.agents, j), s, p.guid, p.index, item));
    }
  }

  lemma DislodgedIsLegal(sc: Scene, k: AgentKey, slot: InventorySlot, source: ItemPlacement, feet: Position)
    requires IsPlayerOf(sc.agents, k) && feet in sc.tiles && !source.InInventory? && HandsAreLegal(BagOf(sc.agents, k))
    ensures var d := Dislodged(sc, k, slot, source, feet);
            IsPlayerOf(d.agents, k) && HandsAreLegal(BagOf(d.agents, k)) && slot !in BagOf(d.agents, k)
  {
    var bag := BagOf(sc.agents, k);
    if slot in bag {
      var emptied := WithSlots(sc, k, bag - {slot});
      BagWritten(sc.agents, k, bag - {slot});
      if Takes(emptied, source, bag[slot]) { InsertedIsLegal(emptied, k, source, None, bag[slot]); }
    }
  }

  lemma {:induction false} RoomIsLegal(sc: Scene, k: AgentKey, slot: InventorySlot, item: Item, source: ItemPlacement,
                                       feet: Position)
    requires IsPlayerOf(sc.agents, k) && feet in sc.tiles && Unique(SceneTally(sc)) && !source.InInventory?
    requires FitsSlot(item, slot) && HandsAreLegal(BagOf(sc.agents, k))
    ensures var (ok, room) := RoomMade(sc, k, slot, item, source, feet);
            && IsPlayerOf(room.agents, k) && HandsAreLegal(BagOf(room.agents, k))
            && (ok ==> HandsAreLegal(BagOf(room.agents, k)[slot := item]))
  {
    var d := Dislodged(sc, k, slot, source, feet);
    DislodgedKeeps(sc, k, slot, source, feet);
    DislodgedIsLegal(sc, k, slot, source, feet);
    BagIsUnique(d, k);
    HandsFreedKeepsTheRest(BagOf(d.agents, k), slot, item);
    BagWritten(d.agents, k, HandsFreed(BagOf(d.agents, k), slot, item).1);
  }

  lemma {:induction false} PlacedIsLegal(sc: Scene, k: AgentKey, to: ItemPlacement, item: Item, source: ItemPlacement,
                                         feet: Position)
    requires IsPlayerOf(sc.agents, k) && feet in sc.tiles && Unique(SceneTally(sc)) && !source.InInventory?
    requires (Site(to).Slot? ==> Site(to).agent == k) && (to.InInventory? ==> FitsSlot(item, to.slot))
    requires HandsAreLegal(BagOf(sc.agents, k))
    ensures var p := Placed(sc, k, to, item, source, feet).1;
            IsPlayerOf(p.agents, k) && HandsAreLegal(BagOf(p.agents, k))
  {
    if to.InInventory? {
      RoomIsLegal(sc, k, to.slot, item, source, feet);
      var room := RoomMade(sc, k, to.slot, item, source, feet).1;
      BagWritten(room.agents, k, BagOf(room.agents, k)[to.slot := item]);
    } else if Takes(sc, to, item) {
      InsertedIsLegal(sc, k, to, None, item);
    }
  }
}
