/**
 The steps of moving an item: removing it, inserting it, stowing what is in the way. A step
 refines a function on scenes; what the steps keep is proved about those functions.
 */
module ItemMovement {
  import opened Wrappers
  import opened Positions
  import opened Items
  import opened Inventories
  import opened Ledgers
  import opened Scenes
  import opened Events
  import opened Ticks

  // ---------------------------------------------------------------- inserting and removing

  method InsertInBag(ctx: TickCtx, item: Item, slot: InventorySlot, k: AgentKey, container: Option<(Guid, nat)>)
    returns (r: Result<(), MovementError>)
    requires ctx.Valid()
    requires container.Some? && ctx.IsPlayer(k) && slot in ctx.SlotsOf(k)
             && CanCarry(ctx.world.agents, k, TotalWeight(item)) ==>
               Fits(ctx.SlotsOf(k)[slot], container.value.0, container.value.1)
    modifies ctx`events, ctx.world`agents
    ensures ctx.Valid()
    ensures r.Err? ==> ctx.world.agents == old(ctx.world.agents) && ctx.events == old(ctx.events)
    ensures r.Ok? <==> && old(ctx.IsPlayer(k)) && CanCarry(old(ctx.world.agents), k, TotalWeight(item))
                       && (container.Some? ==> PutOutcome(old(ctx.SlotsOf(k)), slot, container.value.0).Ok?)
    ensures r.Ok? ==>
              ctx.world.agents
              == WithBag(old(ctx.world.agents), k,
                         match container
                         case None => old(ctx.SlotsOf(k))[slot := item]
                         case Some((g, at)) => Packed(old(ctx.SlotsOf(k)), slot, g, at, item))
  {
    if !ctx.IsPlayer(k) || !CanCarry(ctx.world.agents, k, TotalWeight(item)) {
      return Err(NotEnoughCap);
    }
    match container {
      case None =>
        ctx.Equip(k, slot, item);
        ctx.events := ctx.events + [UpdateInventorySlot(k, slot)];
        r := Ok(());
      case Some((g, at)) =>
        r := ctx.Stash(k, slot, g, at, item);
    }
  }

  method InsertItemAt(ctx: TickCtx, item: Item, placement: ItemPlacement, index: Option<nat>)
    returns (r: Result<(), MovementError>)
    requires ctx.Valid() && InsertOk(ctx.Now(), placement, item) && IndexOk(ctx.Now(), placement, index)
    modifies ctx`events, ctx.world`chunks, ctx.world`tiles, ctx.world`agents
    ensures ctx.Valid()
    ensures r.Ok? <==> Takes(old(ctx.Now()), placement, item)
    ensures ctx.Now() == if r.Ok? then Inserted(old(ctx.Now()), placement, index, item) else old(ctx.Now())
    ensures r.Err? ==> ctx.events == old(ctx.events)
  {
    match Site(placement) {
      case Tile(pos) =>
        match Container(placement) {
          case None => r := ctx.Drop(pos, index, item);
          case Some((g, at)) => r := ctx.Pack(pos, g, at, item);
        }
      case Slot(slot, k) =>
        r := InsertInBag(ctx, item, slot, k, Container(placement));
    }
  }

  // From a tile: directly, or from a container somewhere on it, and then without an index.
  method RemoveFromTile(ctx: TickCtx, pos: Position, guid: Guid, amount: U8, newName: Guid)
    returns (r: Option<(Item, Option<nat>)>)
    requires ctx.Valid()
    modifies ctx`events, ctx.world`chunks, ctx.world`tiles
    ensures ctx.Valid()
    ensures r.None? ==> ctx.world.tiles == old(ctx.world.tiles) && ctx.events == old(ctx.events)
    ensures r.Some? <==> pos in old(ctx.world.tiles)
                         && TakeFrom(old(ctx.world.tiles)[pos].items, guid, amount, newName).Some?
    ensures r.Some? ==>
              var t := TakeFrom(old(ctx.world.tiles)[pos].items, guid, amount, newName).value;
              && r.value == (t.removed, if t.parent.None? then Some(t.at) else None)
              && ctx.world.tiles == WithItems(old(ctx.world.tiles), pos, t.rest)
  {
    var removed := ctx.world.RemoveItemFromTile(pos, guid, amount, newName);
    if removed.None? { return None; }
    var (item, index, parent) := removed.value;
    ctx.events := ctx.events
      + [if parent.Some? then ContainerUpdated(parent.value.0, OnMap(pos)) else TileChanged(pos)];
    return Some((item, index));
  }

  // From a player's slot, or from a container in it.
  method RemoveFromSlot(ctx: TickCtx, k: AgentKey, slot: InventorySlot, guid: Guid, amount: U8, newName: Guid)
    returns (r: Option<Item>)
    requires ctx.Valid()
    modifies ctx`events, ctx.world`agents
    ensures ctx.Valid()
    ensures r.Some? <==> old(ctx.IsPlayer(k)) && CanDraw(old(ctx.SlotsOf(k)), slot, guid, amount, newName)
    ensures r.None? ==> ctx.world.agents == old(ctx.world.agents) && ctx.events == old(ctx.events)
    ensures r.Some? ==>
              && ctx.world.agents
                 == WithBag(old(ctx.world.agents), k, Drawn(old(ctx.SlotsOf(k)), slot, guid, amount, newName))
              && r.value == TakeFrom([old(ctx.SlotsOf(k))[slot]], guid, amount, newName).value.removed
  {
    if !ctx.IsPlayer(k) { return None; }
    var removed := ctx.Draw(k, slot, guid, amount, newName);
    if removed.None? { return None; }
    var (item, parent) := removed.value;
    ctx.events := ctx.events
      + [if parent.Some? then ContainerUpdated(parent.value.0, InInventory(slot, k)) else UpdateInventorySlot(k, slot)];
    return Some(item);
  }

  method RemoveItemAt(ctx: TickCtx, placement: ItemPlacement, guid: Guid, amount: U8, newName: Guid)
    returns (r: Option<(Item, Option<nat>)>)
    requires ctx.Valid()
    modifies ctx`events, ctx.world`chunks, ctx.world`tiles, ctx.world`agents
    ensures ctx.Valid()
    ensures r.Some? <==> CanTake(old(ctx.Now()), placement, guid, amount, newName)
    ensures r.None? ==> ctx.Now() == old(ctx.Now()) && ctx.events == old(ctx.events)
    ensures r.Some? ==>
              && ctx.Now() == Removed(old(ctx.Now()), placement, guid, amount, newName)
              && r.value == (TakenOf(old(ctx.Now()), placement, guid, amount, newName).removed,
                             PlaceTaken(old(ctx.Now()), placement, guid, amount, newName))
  {
    match Site(placement) {
      case Tile(pos) => r := RemoveFromTile(ctx, pos, guid, amount, newName);
      case Slot(slot, k) =>
        var item := RemoveFromSlot(ctx, k, slot, guid, amount, newName);
        r := match item case None => None case Some(x) => Some((x, None));
    }
  }

  // ---------------------------------------------------------------- stowing

  predicate IsBowOrQuiver(it: Item) { it.config.isBow || AmmoContainer in it.config.flags }

  predicate IsTwoHanded(it: Item) { it.config.slot == Some(BothHands) }

  // The backpack names a container that takes one more.
  predicate BackpackHasRoom(slots: Slots) {
    && Backpack in slots && FindAvailable(slots[Backpack]).Some?
    && PutOutcome(slots, Backpack, FindAvailable(slots[Backpack]).value).Ok?
  }

  // The slots after `item` went into the backpack's first container with room, at its front.
  ghost function Stowed(slots: Slots, item: Item): Option<Slots>
    requires Unique(HeldTally(slots))
  {
    if !BackpackHasRoom(slots) then None
    else
      AvailableFits(slots);
      Some(Packed(slots, Backpack, FindAvailable(slots[Backpack]).value, 0, item))
  }

  lemma AvailableFits(slots: Slots)
    requires Unique(HeldTally(slots)) && Backpack in slots && FindAvailable(slots[Backpack]).Some?
    ensures Fits(slots[Backpack], FindAvailable(slots[Backpack]).value, 0)
  {
    SlotIsPart(slots, Backpack);
    UniquePart(Tally(slots[Backpack]), HeldTally(slots));
    AvailableHasRoom(slots[Backpack]);
  }

  method StowItem(ctx: TickCtx, k: AgentKey, item: Item) returns (r: Result<(), MovementError>)
    requires ctx.Valid() && ctx.IsPlayer(k) && Unique(HeldTally(ctx.SlotsOf(k)))
    modifies ctx`events, ctx.world`agents
    ensures ctx.Valid()
    ensures r.Ok? <==> Stowed(old(ctx.SlotsOf(k)), item).Some?
    ensures r.Ok? ==> ctx.world.agents == WithBag(old(ctx.world.agents), k, Stowed(old(ctx.SlotsOf(k)), item).value)
    ensures r.Err? ==> ctx.world.agents == old(ctx.world.agents) && ctx.events == old(ctx.events)
  {
    var slots := ctx.SlotsOf(k);
    if Backpack !in slots { return Err(CannotEquip); }
    var available := FindAvailable(slots[Backpack]);
    if available.None? { return Err(CannotEquip); }
    AvailableFits(slots);
    r := ctx.Stash(k, Backpack, available.value, 0, item);
  }

  // One hand emptied into the backpack; as it was when there is no room.
  ghost function HandStowed(slots: Slots, hand: InventorySlot): (bool, Slots)
    requires Unique(HeldTally(slots))
  {
    if hand !in slots then (true, slots)
    else
      FewerStayUnique(slots, hand);
      match Stowed(slots - {hand}, slots[hand]) case Some(s) => (true, s) case None => (false, slots)
  }

  lemma FewerStayUnique(slots: Slots, s: InventorySlot)
    requires Unique(HeldTally(slots))
    ensures Unique(HeldTally(slots - {s}))
  {
    SlotEmptied(slots, s);
    UniquePart(HeldTally(slots - {s}), HeldTally(slots));
  }

  lemma PutBack(slots: Slots, s: InventorySlot)
    requires s in slots
    ensures (slots - {s})[s := slots[s]] == slots
  {
  }

  // What was in the hand goes into the backpack, or back into the hand.
  method StowTaken(ctx: TickCtx, k: AgentKey, hand: InventorySlot, item: Item)
    returns (r: Result<(), MovementError>)
    requires ctx.Valid() && ctx.IsPlayer(k) && Unique(HeldTally(ctx.SlotsOf(k)))
    modifies ctx`events, ctx.world`agents
    ensures ctx.Valid()
    ensures r.Ok? <==> Stowed(old(ctx.SlotsOf(k)), item).Some?
    ensures ctx.world.agents
            == WithBag(old(ctx.world.agents), k, if r.Ok? then Stowed(old(ctx.SlotsOf(k)), item).value
                                                 else old(ctx.SlotsOf(k))[hand := item])
  {
    r := StowItem(ctx, k, item);
    if r.Err? {
      ctx.Equip(k, hand, item);
      return;
    }
    ctx.events := ctx.events + [UpdateInventorySlot(k, hand)];
  }

  method StowHand(ctx: TickCtx, k: AgentKey, hand: InventorySlot) returns (r: Result<(), MovementError>)
    requires ctx.Valid() && ctx.IsPlayer(k) && Unique(HeldTally(ctx.SlotsOf(k)))
    modifies ctx`events, ctx.world`agents
    ensures ctx.Valid()
    ensures r.Ok? == HandStowed(old(ctx.SlotsOf(k)), hand).0
    ensures ctx.world.agents == WithBag(old(ctx.world.agents), k, HandStowed(old(ctx.SlotsOf(k)), hand).1)
  {
    ghost var before, slots := ctx.world.agents, ctx.SlotsOf(k);
    FewerStayUnique(slots, hand);
    SlotEmptied(slots, hand);
    BagWritten(before, k, slots - {hand});
    var item := ctx.Unequip(k, hand);
    if item.None? { return Ok(()); }
    PutBack(slots, hand);
    r := StowTaken(ctx, k, hand, item.value);
  }

  lemma StowedBalances(slots: Slots, item: Item)
    requires Unique(HeldTally(slots)) && Stowed(slots, item).Some?
    ensures var slots' := Stowed(slots, item).value;
            && HeldTally(slots') == HeldTally(slots) + Tally(item)
            && TotalCarried(slots') == TotalCarried(slots) + TotalWeight(item)
            && slots'.Keys == slots.Keys && SameExcept(slots', slots, Backpack)
  {
    AvailableFits(slots);
    PutInSlot(slots, Backpack, FindAvailable(slots[Backpack]).value, 0, item);
  }

  // Hands empty into the backpack; the other slots keep what they have.
  ghost predicate HandEmptied(slots: Slots, hand: InventorySlot, ok: bool, after: Slots) {
    && HeldTally(after) == HeldTally(slots)
    && (ok ==> after.Keys == slots.Keys - {hand})
    && (!ok ==> after == slots)
    && (forall s :: s != hand && s != Backpack ==> Displaced(after, s) == Displaced(slots, s))
  }

  lemma HandStowedBalances(slots: Slots, hand: InventorySlot)
    requires Unique(HeldTally(slots)) && hand != Backpack
    ensures HandEmptied(slots, hand, HandStowed(slots, hand).0, HandStowed(slots, hand).1)
    ensures HandStowed(slots, hand).0 <==> hand !in slots || BackpackHasRoom(slots)
  {
    FewerStayUnique(slots, hand);
    if hand in slots {
      var emptied := slots - {hand};
      var stowed := Stowed(emptied, slots[hand]);
      if stowed.Some? {
        StowedBalances(emptied, slots[hand]);
        HandHasMoved(slots, hand, stowed.value);
      }
    } else {
      AllKeysStay(slots, hand);
    }
  }

  lemma HandHasMoved(slots: Slots, hand: InventorySlot, after: Slots)
    requires hand in slots && hand != Backpack
    requires after.Keys == (slots - {hand}).Keys && SameExcept(after, slots - {hand}, Backpack)
    requires HeldTally(after) == HeldTally(slots - {hand}) + Tally(slots[hand])
    ensures HandEmptied(slots, hand, true, after)
  {
    assert HeldTally(after) == HeldTally(slots) by { SlotEmptied(slots, hand); }
    forall s | s != hand && s != Backpack ensures Displaced(after, s) == Displaced(slots, s) {
      assert s in after <==> s in slots;
    }
  }

  lemma AllKeysStay(slots: Slots, hand: InventorySlot)
    requires hand !in slots
    ensures HandEmptied(slots, hand, true, slots)
  {
  }

  // ---------------------------------------------------------------- freeing the hands

  // The slots after the hands are freed that may not stay full once `source` is in its slot,
  // and whether they could be.
  ghost function HandsFreed(slots: Slots, slot: InventorySlot, source: Item): (bool, Slots)
    requires Unique(HeldTally(slots))
  {
    if LeftHand in slots && IsBowOrQuiver(slots[LeftHand]) && IsBowOrQuiver(source) then (true, slots)
    else EachHandFreed(slots, slot, source)
  }

  ghost function EachHandFreed(slots: Slots, slot: InventorySlot, source: Item): (bool, Slots)
    requires Unique(HeldTally(slots))
  {
    RightHandFreedKeeps(slots, source);
    var (ok, freed) := RightHandFreed(slots, source);
    if ok then LeftHandFreed(freed, slot) else (false, freed)
  }

  ghost function RightHandFreed(slots: Slots, source: Item): (bool, Slots)
    requires Unique(HeldTally(slots))
  {
    if IsTwoHanded(source) then HandStowed(slots, RightHand) else (true, slots)
  }

  ghost function LeftHandFreed(slots: Slots, slot: InventorySlot): (bool, Slots)
    requires Unique(HeldTally(slots))
  {
    if slot == RightHand && LeftHand in slots && IsTwoHanded(slots[LeftHand]) then HandStowed(slots, LeftHand)
    else (true, slots)
  }

  lemma RightHandFreedKeeps(slots: Slots, source: Item)
    requires Unique(HeldTally(slots))
    ensures var (ok, freed) := RightHandFreed(slots, source);
            Unique(HeldTally(freed)) && Displaced(freed, LeftHand) == Displaced(slots, LeftHand)
  {
    HandStowedBalances(slots, RightHand);
  }

  method FreeHands(ctx: TickCtx, k: AgentKey, slot: InventorySlot, item: Item)
    returns (r: Result<(), MovementError>)
    requires ctx.Valid() && ctx.IsPlayer(k) && Unique(HeldTally(ctx.SlotsOf(k)))
    requires item.config.slot.Some? && (LeftHand in ctx.SlotsOf(k) ==> ctx.SlotsOf(k)[LeftHand].config.slot.Some?)
    modifies ctx`events, ctx.world`agents
    ensures ctx.Valid()
    ensures r.Ok? == HandsFreed(old(ctx.SlotsOf(k)), slot, item).0
    ensures ctx.world.agents == WithBag(old(ctx.world.agents), k, HandsFreed(old(ctx.SlotsOf(k)), slot, item).1)
  {
    var worn := ctx.SlotsOf(k);
    if LeftHand in worn && IsBowOrQuiver(worn[LeftHand]) && IsBowOrQuiver(item) {
      SameBag(ctx.world.agents, k);
      r := Ok(());
    } else {
      r := FreeEachHand(ctx, k, slot, item);
    }
  }

  method FreeEachHand(ctx: TickCtx, k: AgentKey, slot: InventorySlot, item: Item)
    returns (r: Result<(), MovementError>)
    requires ctx.Valid() && ctx.IsPlayer(k) && Unique(HeldTally(ctx.SlotsOf(k)))
    requires item.config.slot.Some? && (LeftHand in ctx.SlotsOf(k) ==> ctx.SlotsOf(k)[LeftHand].config.slot.Some?)
    modifies ctx`events, ctx.world`agents
    ensures ctx.Valid()
    ensures r.Ok? == EachHandFreed(old(ctx.SlotsOf(k)), slot, item).0
    ensures ctx.world.agents == WithBag(old(ctx.world.agents), k, EachHandFreed(old(ctx.SlotsOf(k)), slot, item).1)
  {
    ghost var before, freed := ctx.world.agents, RightHandFreed(ctx.SlotsOf(k), item).1;
    RightHandFreedKeeps(ctx.SlotsOf(k), item);
    BagWritten(before, k, freed);
    r := FreeRightHand(ctx, k, item);
    if r.Err? { return; }
    r := FreeLeftHand(ctx, k, slot);
  }

  method FreeRightHand(ctx: TickCtx, k: AgentKey, item: Item) returns (r: Result<(), MovementError>)
    requires ctx.Valid() && ctx.IsPlayer(k) && Unique(HeldTally(ctx.SlotsOf(k))) && item.config.slot.Some?
    modifies ctx`events, ctx.world`agents
    ensures ctx.Valid()
    ensures r.Ok? == RightHandFreed(old(ctx.SlotsOf(k)), item).0
    ensures ctx.world.agents == WithBag(old(ctx.world.agents), k, RightHandFreed(old(ctx.SlotsOf(k)), item).1)
  {
    SameBag(ctx.world.agents, k);
    if item.config.slot.value == BothHands {
      r := StowHand(ctx, k, RightHand);
    } else {
      r := Ok(());
    }
  }

  method FreeLeftHand(ctx: TickCtx, k: AgentKey, slot: InventorySlot) returns (r: Result<(), MovementError>)
    requires ctx.Valid() && ctx.IsPlayer(k) && Unique(HeldTally(ctx.SlotsOf(k)))
    requires LeftHand in ctx.SlotsOf(k) ==> ctx.SlotsOf(k)[LeftHand].config.slot.Some?
    modifies ctx`events, ctx.world`agents
    ensures ctx.Valid()
    ensures r.Ok? == LeftHandFreed(old(ctx.SlotsOf(k)), slot).0
    ensures ctx.world.agents == WithBag(old(ctx.world.agents), k, LeftHandFreed(old(ctx.SlotsOf(k)), slot).1)
  {
    SameBag(ctx.world.agents, k);
    var hands := ctx.SlotsOf(k);
    if slot == RightHand && LeftHand in hands && hands[LeftHand].config.slot.value == BothHands {
      r := StowHand(ctx, k, LeftHand);
    } else {
      r := Ok(());
    }
  }

  // A two-handed weapon shares the hands with nothing - but a bow with its quiver.
  ghost predicate HandsAreLegal(slots: Slots) {
    LeftHand in slots && RightHand in slots && slots[LeftHand].config.slot == Some(BothHands) ==>
      && (slots[LeftHand].config.isBow || AmmoContainer in slots[LeftHand].config.flags)
      && (slots[RightHand].config.isBow || AmmoContainer in slots[RightHand].config.flags)
  }

  predicate FitsSlot(it: Item, slot: InventorySlot) {
    it.config.slot == Some(slot) || (it.config.slot == Some(BothHands) && slot == LeftHand)
  }

  // No hand has to be emptied before `source` goes into the slot: it goes with the bow or the
  // quiver in the left hand; or it leaves a hand for what is in the other one, and so does that.
  ghost predicate HandsAreFree(slots: Slots, slot: InventorySlot, source: Item) {
    || (LeftHand in slots && (slots[LeftHand].config.isBow || AmmoContainer in slots[LeftHand].config.flags)
        && (source.config.isBow || AmmoContainer in source.config.flags))
    || ((source.config.slot == Some(BothHands) ==> RightHand !in slots)
        && (slot == RightHand && LeftHand in slots ==> slots[LeftHand].config.slot != Some(BothHands)))
  }

  lemma RightHandFreedIsLegal(slots: Slots, source: Item)
    requires Unique(HeldTally(slots))
    ensures var (ok, freed) := RightHandFreed(slots, source);
            && HeldTally(freed) == HeldTally(slots) && freed.Keys <= slots.Keys
            && (HandsAreLegal(slots) ==> HandsAreLegal(freed))
            && (ok && IsTwoHanded(source) ==> RightHand !in freed)
  {
    HandStowedBalances(slots, RightHand);
  }

  lemma LeftHandFreedIsLegal(slots: Slots, slot: InventorySlot)
    requires Unique(HeldTally(slots))
    ensures var (ok, freed) := LeftHandFreed(slots, slot);
            && HeldTally(freed) == HeldTally(slots) && freed.Keys <= slots.Keys
            && (HandsAreLegal(slots) ==> HandsAreLegal(freed))
            && (ok && slot == RightHand ==> LeftHand !in freed || !IsTwoHanded(freed[LeftHand]))
  {
    HandStowedBalances(slots, LeftHand);
  }

  // Freeing the hands loses nothing, and equipping then keeps the hands legal - as does
  // failing half-way.
  lemma HandsFreedKeepsTheRest(slots: Slots, slot: InventorySlot, source: Item)
    requires Unique(HeldTally(slots))
    ensures var (ok, slots') := HandsFreed(slots, slot, source);
            && HeldTally(slots') == HeldTally(slots) && slots'.Keys <= slots.Keys
            && (HandsAreLegal(slots) ==> HandsAreLegal(slots'))
            && (HandsAreLegal(slots) && slot !in slots && FitsSlot(source, slot) && ok ==>
                  HandsAreLegal(slots'[slot := source]))
  {
    RightHandFreedKeeps(slots, source);
    RightHandFreedIsLegal(slots, source);
    if LeftHand in slots && IsBowOrQuiver(slots[LeftHand]) && IsBowOrQuiver(source) { return; }
    LeftHandFreedIsLegal(RightHandFreed(slots, source).1, slot);
  }

  lemma HandStowedIff(slots: Slots, hand: InventorySlot)
    requires Unique(HeldTally(slots)) && hand != Backpack
    ensures var (ok, after) := HandStowed(slots, hand);
            && (ok <==> hand !in slots || BackpackHasRoom(slots))
            && (after == slots <==> !ok || hand !in slots)
            && (forall s :: s != hand ==> (s in after <==> s in slots))
  {
    HandStowedBalances(slots, hand);
  }

  // The hands can be freed exactly when none is in the way or the backpack has room; when
  // they cannot, the slots stay as they are.
  lemma HandsCanBeFreedIff(slots: Slots, slot: InventorySlot, source: Item)
    requires Unique(HeldTally(slots)) && FitsSlot(source, slot)
    ensures var (ok, slots') := HandsFreed(slots, slot, source);
            && (ok <==> HandsAreFree(slots, slot, source) || BackpackHasRoom(slots))
            && (slots' == slots <==> !ok || HandsAreFree(slots, slot, source))
            && (slot in slots' <==> slot in slots)
  {
    RightHandFreedKeeps(slots, source);
    if IsTwoHanded(source) {
      HandStowedIff(slots, RightHand);
    } else if slot == RightHand {
      HandStowedIff(slots, LeftHand);
    }
  }

  // ---------------------------------------------------------------- making room

  // What was in the slot goes to the source of the move, or at the player's feet when the
  // source will not have it.
  ghost function Dislodged(sc: Scene, k: AgentKey, slot: InventorySlot, source: ItemPlacement, feet: Position): Scene
    requires IsPlayerOf(sc.agents, k) && feet in sc.tiles
  {
    var slots := BagOf(sc.agents, k);
    if slot in slots then LaidAside(WithSlots(sc, k, slots - {slot}), slots[slot], source, feet) else sc
  }

  ghost function LaidAside(sc: Scene, item: Item, source: ItemPlacement, feet: Position): Scene
    requires feet in sc.tiles
  {
    if Takes(sc, source, item) then Inserted(sc, source, None, item)
    else sc.(tiles := WithOneMore(sc.tiles, feet, None, item))
  }

  // The insertion of what is dislodged does not panic.
  ghost predicate DislodgeOk(sc: Scene, k: AgentKey, slot: InventorySlot, source: ItemPlacement)
    requires IsPlayerOf(sc.agents, k)
  {
    var slots := BagOf(sc.agents, k);
    slot in slots ==> InsertOk(WithSlots(sc, k, slots - {slot}), source, slots[slot])
  }

  method LayAside(ctx: TickCtx, item: Item, source: ItemPlacement, feet: Position)
    requires ctx.Valid() && feet in ctx.world.tiles && InsertOk(ctx.Now(), source, item)
    modifies ctx`events, ctx.world`chunks, ctx.world`tiles, ctx.world`agents
    ensures ctx.Valid() && ctx.Now() == LaidAside(old(ctx.Now()), item, source, feet)
  {
    var laid := InsertItemAt(ctx, item, source, None);
    if laid.Err? {
      laid := ctx.Drop(feet, None, item);
    }
  }

  method Dislodge(ctx: TickCtx, k: AgentKey, slot: InventorySlot, source: ItemPlacement)
    requires ctx.Valid() && ctx.IsPlayer(k) && DislodgeOk(ctx.Now(), k, slot, source)
    modifies ctx`events, ctx.world`chunks, ctx.world`tiles, ctx.world`agents
    ensures ctx.Valid()
    ensures k in ctx.world.places && ctx.world.places[k] in old(ctx.world.tiles)
    ensures ctx.Now() == Dislodged(old(ctx.Now()), k, slot, source, ctx.world.places[k])
  {
    assert k in ctx.world.places && ctx.world.places[k] in ctx.world.tiles;
    ghost var before := ctx.Now();
    SlotEmptied(ctx.SlotsOf(k), slot);
    SameBag(ctx.world.agents, k);
    var item := ctx.Unequip(k, slot);
    if item.None? { return; }
    LayAside(ctx, item.value, source, ctx.world.places[k]);
  }

  // The slot emptied and the hands freed; and whether they could be.
  ghost function RoomMade(sc: Scene, k: AgentKey, slot: InventorySlot, item: Item, source: ItemPlacement,
                          feet: Position)
    : (bool, Scene)
    requires IsPlayerOf(sc.agents, k) && feet in sc.tiles && Unique(SceneTally(sc))
  {
    var d := Dislodged(sc, k, slot, source, feet);
    DislodgedKeeps(sc, k, slot, source, feet);
    BagIsUnique(d, k);
    var (ok, slots) := HandsFreed(BagOf(d.agents, k), slot, item);
    (ok, WithSlots(d, k, slots))
  }

  // What laying aside writes over.
  ghost function LostAside(sc: Scene, k: AgentKey, slot: InventorySlot, source: ItemPlacement): multiset<Token>
    requires IsPlayerOf(sc.agents, k)
  {
    var slots := BagOf(sc.agents, k);
    if slot in slots && Takes(WithSlots(sc, k, slots - {slot}), source, slots[slot])
    then Overwritten(WithSlots(sc, k, slots - {slot}), source) else multiset{}
  }

  lemma LaidAsideBalances(sc: Scene, item: Item, source: ItemPlacement, feet: Position)
    requires feet in sc.tiles
    ensures SceneTally(LaidAside(sc, item, source, feet))
            + (if Takes(sc, source, item) then Overwritten(sc, source) else multiset{})
            == SceneTally(sc) + Tally(item)
    ensures sc.tiles.Keys <= LaidAside(sc, item, source, feet).tiles.Keys
  {
    if Takes(sc, source, item) {
      InsertingBalances(sc, source, None, item);
    } else {
      OneMoreBalances(sc.tiles, BagsOf(sc.agents), feet, None, item);
    }
  }

  lemma SameTilesAndPlayers(sc: Scene, item: Item, source: ItemPlacement, feet: Position, k: AgentKey)
    requires feet in sc.tiles && IsPlayerOf(sc.agents, k)
    ensures var d := LaidAside(sc, item, source, feet);
            IsPlayerOf(d.agents, k) && d.agents[k].inner.capacity == sc.agents[k].inner.capacity
  {
  }

  lemma DislodgingBalances(sc: Scene, k: AgentKey, slot: InventorySlot, source: ItemPlacement, feet: Position)
    requires IsPlayerOf(sc.agents, k) && feet in sc.tiles && slot in BagOf(sc.agents, k)
    ensures SceneTally(Dislodged(sc, k, slot, source, feet)) + LostAside(sc, k, slot, source) == SceneTally(sc)
  {
    var slots := BagOf(sc.agents, k);
    var emptied := WithSlots(sc, k, slots - {slot});
    SlotEmptied(slots, slot);
    BagStored(sc.tiles, sc.agents, k, slots - {slot}, Tally(slots[slot]), multiset{});
    LaidAsideBalances(emptied, slots[slot], source, feet);
    AsideAddsUp(SceneTally(emptied), Tally(slots[slot]), SceneTally(sc),
                SceneTally(LaidAside(emptied, slots[slot], source, feet)), LostAside(sc, k, slot, source));
  }

  lemma DislodgedKeeps(sc: Scene, k: AgentKey, slot: InventorySlot, source: ItemPlacement, feet: Position)
    requires IsPlayerOf(sc.agents, k) && feet in sc.tiles
    ensures var d := Dislodged(sc, k, slot, source, feet);
            && IsPlayerOf(d.agents, k) && sc.tiles.Keys <= d.tiles.Keys
            && d.agents[k].inner.capacity == sc.agents[k].inner.capacity
            && SceneTally(d) + LostAside(sc, k, slot, source) == SceneTally(sc)
            && (Unique(SceneTally(sc)) ==> Unique(SceneTally(d)))
  {
    var slots := BagOf(sc.agents, k);
    if slot in slots {
      DislodgingBalances(sc, k, slot, source, feet);
      BagWritten(sc.agents, k, slots - {slot});
      LaidAsideBalances(WithSlots(sc, k, slots - {slot}), slots[slot], source, feet);
      SameTilesAndPlayers(WithSlots(sc, k, slots - {slot}), slots[slot], source, feet, k);
    }
    if Unique(SceneTally(sc)) { UniquePart(SceneTally(Dislodged(sc, k, slot, source, feet)), SceneTally(sc)); }
  }

  lemma AsideAddsUp(emptied: multiset<Token>, item: multiset<Token>, before: multiset<Token>,
                    after: multiset<Token>, lost: multiset<Token>)
    requires emptied + item == before + multiset{} && after + lost == emptied + item
    ensures after + lost == before
  {
  }

  method MakeRoom(ctx: TickCtx, k: AgentKey, slot: InventorySlot, item: Item, source: ItemPlacement)
    returns (r: Result<(), MovementError>)
    requires ctx.Valid() && ctx.IsPlayer(k) && DislodgeOk(ctx.Now(), k, slot, source) && Unique(SceneTally(ctx.Now()))
    requires item.config.slot.Some? && WearsSlotted(ctx.SlotsOf(k))
    modifies ctx`events, ctx.world`chunks, ctx.world`tiles, ctx.world`agents
    ensures ctx.Valid()
    ensures k in ctx.world.places && ctx.world.places[k] in old(ctx.world.tiles)
    ensures r.Ok? == RoomMade(old(ctx.Now()), k, slot, item, source, ctx.world.places[k]).0
    ensures ctx.Now() == RoomMade(old(ctx.Now()), k, slot, item, source, ctx.world.places[k]).1
  {
    ghost var before := ctx.Now();
    Dislodge(ctx, k, slot, source);
    DislodgedKeeps(before, k, slot, source, ctx.world.places[k]);
    BagIsUnique(ctx.Now(), k);
    DislodgedWearsSlotted(before, k, slot, source, ctx.world.places[k]);
    r := FreeHands(ctx, k, slot, item);
  }

  // Whatever is worn belongs in a slot.
  predicate WearsSlotted(slots: Slots) { forall s :: s in slots ==> slots[s].config.slot.Some? }

  lemma DislodgedWearsSlotted(sc: Scene, k: AgentKey, slot: InventorySlot, source: ItemPlacement, feet: Position)
    requires IsPlayerOf(sc.agents, k) && feet in sc.tiles && WearsSlotted(BagOf(sc.agents, k))
    requires IsPlayerOf(Dislodged(sc, k, slot, source, feet).agents, k)
    ensures WearsSlotted(BagOf(Dislodged(sc, k, slot, source, feet).agents, k))
  {
    var slots := BagOf(sc.agents, k);
    if slot in slots {
      var emptied := WithSlots(sc, k, slots - {slot});
      BagWritten(sc.agents, k, slots - {slot});
      if Takes(emptied, source, slots[slot]) && source.InContainer? && Site(source).Slot? && Site(source).agent == k {
        PutKeepsTheOuter(BagOf(emptied.agents, k)[Site(source).slot], source.guid, source.index, slots[slot]);
      }
    }
  }
}
