/**
 What an item movement can change: the tiles, and the agents with what they carry. Putting
 items in and taking them out are functions from one scene to the next; the steps of a tick
 refine them, and what the world holds is accounted for here.
 */
module Scenes {
  import opened Wrappers
  import opened Positions
  import opened Items
  import opened Inventories
  import opened GameMaps
  import opened Ledgers

  datatype Scene = Scene(tiles: Tiles, agents: Agents)

  // ---------------------------------------------------------------- agents and their bags

  predicate IsPlayerOf(agents: Agents, k: AgentKey) { k in agents && agents[k].inner.Player? }

  function BagOf(agents: Agents, k: AgentKey): Slots
    requires IsPlayerOf(agents, k)
  {
    agents[k].inner.inventory.slots
  }

  ghost function BagsOf(agents: Agents): map<AgentKey, Slots> {
    map k | k in agents && agents[k].inner.Player? :: agents[k].inner.inventory.slots
  }

  function WithInventory(a: Agent, inventory: Carried): Agent
    requires a.inner.Player?
  {
    a.(inner := a.inner.(inventory := inventory))
  }

  // Nothing about any agent is different except what `k` carries.
  function WithBag(agents: Agents, k: AgentKey, slots: Slots): Agents
    requires IsPlayerOf(agents, k)
  {
    agents[k := WithInventory(agents[k], Resting(slots))]
  }

  lemma BagWritten(agents: Agents, k: AgentKey, slots: Slots)
    requires IsPlayerOf(agents, k)
    ensures IsPlayerOf(WithBag(agents, k, slots), k) && BagOf(WithBag(agents, k, slots), k) == slots
    ensures WithBag(agents, k, slots)[k].inner.capacity == agents[k].inner.capacity
    ensures forall again: Slots :: WithBag(WithBag(agents, k, slots), k, again) == WithBag(agents, k, again)
  {
  }

  lemma SameBag(agents: Agents, k: AgentKey)
    requires IsPlayerOf(agents, k)
    ensures WithBag(agents, k, BagOf(agents, k)) == agents
  {
    assert Resting(BagOf(agents, k)) == agents[k].inner.inventory;
  }

  lemma BagsAfter(agents: Agents, k: AgentKey, slots: Slots)
    requires IsPlayerOf(agents, k)
    ensures BagsOf(WithBag(agents, k, slots)) == BagsOf(agents)[k := slots]
  {
  }

  // What the player's slots gained or lost, the world did.
  lemma BagStored(tiles: Tiles, agents: Agents, k: AgentKey, slots: Slots, a: multiset<Token>, b: multiset<Token>)
    requires IsPlayerOf(agents, k) && HeldTally(slots) + a == HeldTally(BagOf(agents, k)) + b
    ensures WorldTally(tiles, BagsOf(WithBag(agents, k, slots))) + a == WorldTally(tiles, BagsOf(agents)) + b
  {
    BagsAfter(agents, k, slots);
    BagChange(tiles, BagsOf(agents), k, slots, a, b);
  }

  predicate CanCarry(agents: Agents, k: AgentKey, weight: nat)
    requires IsPlayerOf(agents, k)
  {
    agents[k].inner.inventory.carriedWeight + weight <= agents[k].inner.capacity
  }

  // ---------------------------------------------------------------- scenes

  ghost function SceneTally(sc: Scene): multiset<Token> { WorldTally(sc.tiles, BagsOf(sc.agents)) }

  function WithSlots(sc: Scene, k: AgentKey, slots: Slots): Scene
    requires IsPlayerOf(sc.agents, k)
  {
    sc.(agents := WithBag(sc.agents, k, slots))
  }

  function WithItems(tiles: Tiles, pos: Position, items: seq<Item>): Tiles
    requires pos in tiles
  {
    tiles[pos := tiles[pos].(items := items)]
  }

  // One item more on the tile: at the index, or on top when none is given.
  function WithOneMore(tiles: Tiles, pos: Position, index: Option<nat>, item: Item): Tiles
    requires pos in tiles && (index.Some? ==> index.value <= |tiles[pos].items|)
  {
    var items := tiles[pos].items;
    WithItems(tiles, pos, Spliced(items, if index.Some? then index.value else |items|, item))
  }

  lemma BagRearranged(sc: Scene, k: AgentKey, slots: Slots)
    requires IsPlayerOf(sc.agents, k) && HeldTally(slots) == HeldTally(BagOf(sc.agents, k))
    ensures SceneTally(WithSlots(sc, k, slots)) == SceneTally(sc) && IsPlayerOf(WithSlots(sc, k, slots).agents, k)
  {
    BagStored(sc.tiles, sc.agents, k, slots, multiset{}, multiset{});
    NothingAdded(SceneTally(WithSlots(sc, k, slots)), SceneTally(sc));
  }

  lemma NothingAdded(a: multiset<Token>, b: multiset<Token>)
    requires a + multiset{} == b + multiset{}
    ensures a == b
  {
    assert a + multiset{} == a && b + multiset{} == b;
  }

  lemma BagIsUnique(sc: Scene, k: AgentKey)
    requires IsPlayerOf(sc.agents, k) && Unique(SceneTally(sc))
    ensures Unique(HeldTally(BagOf(sc.agents, k)))
  {
    BagIsPart(sc.tiles, BagsOf(sc.agents), k);
    UniquePart(HeldTally(BagOf(sc.agents, k)), SceneTally(sc));
  }

  lemma SlotIsUnique(sc: Scene, k: AgentKey, s: InventorySlot)
    requires IsPlayerOf(sc.agents, k) && Unique(SceneTally(sc)) && s in BagOf(sc.agents, k)
    ensures Unique(Tally(BagOf(sc.agents, k)[s]))
  {
    BagIsUnique(sc, k);
    SlotIsPart(BagOf(sc.agents, k), s);
    UniquePart(Tally(BagOf(sc.agents, k)[s]), HeldTally(BagOf(sc.agents, k)));
  }

  lemma TileIsUnique(sc: Scene, pos: Position)
    requires pos in sc.tiles && Unique(SceneTally(sc))
    ensures Unique(TallyAll(sc.tiles[pos].items))
  {
    TileIsPart(sc.tiles, BagsOf(sc.agents), pos);
    UniquePart(TallyAll(sc.tiles[pos].items), SceneTally(sc));
  }

  // ---------------------------------------------------------------- putting in

  // The source panics where this does not hold: an index past the end of a container with
  // room, or a container that has no capacity.
  ghost predicate InsertOk(sc: Scene, p: ItemPlacement, item: Item) {
    match (Site(p), Container(p))
    case (_, None) => true
    case (Tile(pos), Some((g, at))) => pos in sc.tiles ==> AllFit(sc.tiles[pos].items, g, at)
    case (Slot(s, k), Some((g, at))) =>
      IsPlayerOf(sc.agents, k) && CanCarry(sc.agents, k, TotalWeight(item)) && s in BagOf(sc.agents, k) ==>
        Fits(BagOf(sc.agents, k)[s], g, at)
  }

  // So it does for whatever item.
  ghost predicate Insertable(sc: Scene, p: ItemPlacement) {
    match (Site(p), Container(p))
    case (_, None) => true
    case (Tile(pos), Some((g, at))) => pos in sc.tiles ==> AllFit(sc.tiles[pos].items, g, at)
    case (Slot(s, k), Some((g, at))) =>
      IsPlayerOf(sc.agents, k) && s in BagOf(sc.agents, k) ==> Fits(BagOf(sc.agents, k)[s], g, at)
  }

  // When an insertion is carried out, and not refused.
  ghost predicate Takes(sc: Scene, p: ItemPlacement, item: Item) {
    match (Site(p), Container(p))
    case (Tile(pos), None) => pos in sc.tiles
    case (Tile(pos), Some((g, at))) =>
      pos in sc.tiles && AllFit(sc.tiles[pos].items, g, at) && PutIn(sc.tiles[pos].items, g, at, item).Ok?
    case (Slot(_, k), None) => IsPlayerOf(sc.agents, k) && CanCarry(sc.agents, k, TotalWeight(item))
    case (Slot(s, k), Some((g, at))) =>
      && IsPlayerOf(sc.agents, k) && CanCarry(sc.agents, k, TotalWeight(item))
      && PutOutcome(BagOf(sc.agents, k), s, g).Ok? && Fits(BagOf(sc.agents, k)[s], g, at)
  }

  ghost predicate IndexOk(sc: Scene, p: ItemPlacement, index: Option<nat>) {
    p.OnMap? && p.pos in sc.tiles && index.Some? ==> index.value <= |sc.tiles[p.pos].items|
  }

  // Where `item` goes; nothing else is different.
  ghost function Inserted(sc: Scene, p: ItemPlacement, index: Option<nat>, item: Item): Scene
    requires Takes(sc, p, item) && IndexOk(sc, p, index)
  {
    match (Site(p), Container(p))
    case (Tile(pos), None) => sc.(tiles := WithOneMore(sc.tiles, pos, index, item))
    case (Tile(pos), Some((g, at))) =>
      sc.(tiles := WithItems(sc.tiles, pos, PutIn(sc.tiles[pos].items, g, at, item).value))
    case (Slot(s, k), None) => WithSlots(sc, k, BagOf(sc.agents, k)[s := item])
    case (Slot(s, k), Some((g, at))) => WithSlots(sc, k, Packed(BagOf(sc.agents, k), s, g, at, item))
  }

  // `item` is where `p` says.
  ghost predicate Rests(sc: Scene, p: ItemPlacement, item: Item) {
    match (Site(p), Container(p))
    case (Tile(pos), None) => pos in sc.tiles && item in sc.tiles[pos].items
    case (Tile(pos), Some((g, at))) => pos in sc.tiles && HoldsAt(FindIn(sc.tiles[pos].items, g), at, item)
    case (Slot(s, k), None) =>
      IsPlayerOf(sc.agents, k) && s in BagOf(sc.agents, k) && BagOf(sc.agents, k)[s] == item
    case (Slot(s, k), Some((g, at))) =>
      && IsPlayerOf(sc.agents, k) && s in BagOf(sc.agents, k)
      && HoldsAt(FindByGuid(BagOf(sc.agents, k)[s], g), at, item)
  }

  // What an insertion straight into a slot writes over.
  ghost function Overwritten(sc: Scene, p: ItemPlacement): multiset<Token> {
    if p.InInventory? && IsPlayerOf(sc.agents, p.agent) then SlotTally(BagOf(sc.agents, p.agent), p.slot)
    else multiset{}
  }

  lemma OneMoreBalances(t: Tiles, bags: map<AgentKey, Slots>, pos: Position, index: Option<nat>, item: Item)
    requires pos in t && (index.Some? ==> index.value <= |t[pos].items|)
    ensures WorldTally(WithOneMore(t, pos, index, item), bags) == WorldTally(t, bags) + Tally(item)
    ensures item in WithOneMore(t, pos, index, item)[pos].items
  {
    var at := if index.Some? then index.value else |t[pos].items|;
    TallySplice(t[pos].items, at, item);
    TileChange(t, bags, pos, WithOneMore(t, pos, index, item)[pos], multiset{}, Tally(item));
    assert WithOneMore(t, pos, index, item)[pos].items[at] == item;
  }

  // The world holds `item` more than before, and less what it was written over.
  lemma InsertingBalances(sc: Scene, p: ItemPlacement, index: Option<nat>, item: Item)
    requires Takes(sc, p, item) && IndexOk(sc, p, index)
    ensures SceneTally(Inserted(sc, p, index, item)) + Overwritten(sc, p) == SceneTally(sc) + Tally(item)
  {
    var (t, a) := (sc.tiles, sc.agents);
    match (Site(p), Container(p)) {
      case (Tile(pos), None) => OneMoreBalances(t, BagsOf(a), pos, index, item);
      case (Tile(pos), Some((g, at))) =>
        PutBalances(t[pos].items, g, at, item);
        TileChange(t, BagsOf(a), pos, Inserted(sc, p, index, item).tiles[pos], multiset{}, Tally(item));
      case (Slot(s, k), None) =>
        SlotAssigned(BagOf(a, k), s, item);
        BagStored(t, a, k, BagOf(a, k)[s := item], SlotTally(BagOf(a, k), s), Tally(item));
      case (Slot(s, k), Some((g, at))) =>
        PutInSlot(BagOf(a, k), s, g, at, item);
        BagStored(t, a, k, Packed(BagOf(a, k), s, g, at, item), multiset{}, Tally(item));
    }
  }

  // Where names are unique, the item can be found where it was put.
  lemma InsertingRests(sc: Scene, p: ItemPlacement, index: Option<nat>, item: Item)
    requires Takes(sc, p, item) && IndexOk(sc, p, index) && Unique(SceneTally(sc))
    ensures Rests(Inserted(sc, p, index, item), p, item)
  {
    match (Site(p), Container(p)) {
      case (Tile(pos), None) => OneMoreBalances(sc.tiles, map[], pos, index, item);
      case (Tile(pos), Some((g, at))) =>
        TileIsUnique(sc, pos);
        PutInHolds(sc.tiles[pos].items, g, at, item);
      case (Slot(s, k), None) => BagWritten(sc.agents, k, BagOf(sc.agents, k)[s := item]);
      case (Slot(s, k), Some((g, at))) =>
        PutOneHolds(BagOf(sc.agents, k)[s], g, at, item);
        BagWritten(sc.agents, k, Packed(BagOf(sc.agents, k), s, g, at, item));
    }
  }

  // ---------------------------------------------------------------- taking out

  // Whether there is as much of the item in the slot's tree, and the slots without it.
  predicate CanDraw(slots: Slots, slot: InventorySlot, g: Guid, amount: U8, newName: Guid) {
    slot in slots && TakeFrom([slots[slot]], g, amount, newName).Some?
  }

  function Drawn(slots: Slots, slot: InventorySlot, g: Guid, amount: U8, newName: Guid): Slots
    requires CanDraw(slots, slot, g, amount, newName)
  {
    WithSlot(slots, slot, TakeFrom([slots[slot]], g, amount, newName).value.rest)
  }

  // A taking searches the whole tile or slot tree, whatever container its placement names.
  ghost predicate CanTake(sc: Scene, p: ItemPlacement, g: Guid, amount: U8, newName: Guid) {
    match Site(p)
    case Tile(pos) => pos in sc.tiles && TakeFrom(sc.tiles[pos].items, g, amount, newName).Some?
    case Slot(s, k) => IsPlayerOf(sc.agents, k) && CanDraw(BagOf(sc.agents, k), s, g, amount, newName)
  }

  ghost function TakenOf(sc: Scene, p: ItemPlacement, g: Guid, amount: U8, newName: Guid): Taken
    requires CanTake(sc, p, g, amount, newName)
  {
    match Site(p)
    case Tile(pos) => TakeFrom(sc.tiles[pos].items, g, amount, newName).value
    case Slot(s, k) => TakeFrom([BagOf(sc.agents, k)[s]], g, amount, newName).value
  }

  ghost function Removed(sc: Scene, p: ItemPlacement, g: Guid, amount: U8, newName: Guid): Scene
    requires CanTake(sc, p, g, amount, newName)
  {
    match Site(p)
    case Tile(pos) =>
      sc.(tiles := WithItems(sc.tiles, pos, TakeFrom(sc.tiles[pos].items, g, amount, newName).value.rest))
    case Slot(s, k) => WithSlots(sc, k, Drawn(BagOf(sc.agents, k), s, g, amount, newName))
  }

  // Only what lay straight on a tile has an index to go back to.
  ghost function PlaceTaken(sc: Scene, p: ItemPlacement, g: Guid, amount: U8, newName: Guid): Option<nat>
    requires CanTake(sc, p, g, amount, newName)
  {
    var t := TakenOf(sc, p, g, amount, newName);
    if Site(p).Tile? && t.parent.None? then Some(t.at) else None
  }

  lemma TakingBalances(sc: Scene, p: ItemPlacement, g: Guid, amount: U8, newName: Guid)
    requires CanTake(sc, p, g, amount, newName) && Name(newName) !in SceneTally(sc)
    ensures var x := TakenOf(sc, p, g, amount, newName).removed;
            SceneTally(Removed(sc, p, g, amount, newName)) + Tally(x) == SceneTally(sc) + Minted(x, newName)
  {
    var x := TakenOf(sc, p, g, amount, newName).removed;
    match Site(p) {
      case Tile(pos) =>
        TileIsPart(sc.tiles, BagsOf(sc.agents), pos);
        TakeBalances(sc.tiles[pos].items, g, amount, newName);
        TileChange(sc.tiles, BagsOf(sc.agents), pos, Removed(sc, p, g, amount, newName).tiles[pos],
                   Tally(x), Minted(x, newName));
      case Slot(s, k) =>
        BagIsPart(sc.tiles, BagsOf(sc.agents), k);
        TakenFromSlot(BagOf(sc.agents, k), s, g, amount, newName);
        BagStored(sc.tiles, sc.agents, k, Drawn(BagOf(sc.agents, k), s, g, amount, newName), Tally(x),
                  Minted(x, newName));
    }
  }

  lemma StillUnique(all: multiset<Token>, removed: Item, newName: Guid, rest: multiset<Token>)
    requires Unique(all) && Name(newName) !in all
    requires rest + Tally(removed) == all + Minted(removed, newName)
    ensures Unique(rest + Tally(removed)) && Unique(rest)
  {
    forall g ensures (all + Minted(removed, newName))[Name(g)] <= 1 { assert all[Name(g)] <= 1; }
    UniqueParts(rest, Tally(removed));
  }

  // ---------------------------------------------------------------- the container a placement names

  ghost function ContainerAt(sc: Scene, p: ItemPlacement): Option<Item>
    requires p.InContainer?
  {
    match Site(p)
    case Tile(pos) => if pos in sc.tiles then FindIn(sc.tiles[pos].items, p.guid) else None
    case Slot(s, k) =>
      if IsPlayerOf(sc.agents, k) && s in BagOf(sc.agents, k) then FindByGuid(BagOf(sc.agents, k)[s], p.guid) else None
  }

  ghost predicate SiteIsUnique(sc: Scene, p: ItemPlacement) {
    Site(p).Tile? && Site(p).pos in sc.tiles ==> Unique(TallyAll(sc.tiles[Site(p).pos].items))
  }

  ghost predicate MayCarry(sc: Scene, p: ItemPlacement, item: Item) {
    Site(p).Slot? ==> IsPlayerOf(sc.agents, Site(p).agent) && CanCarry(sc.agents, Site(p).agent, TotalWeight(item))
  }

  // An insertion into a container looks at that container only - and at what the player can
  // carry.
  lemma TakesIff(sc: Scene, p: ItemPlacement, item: Item)
    requires p.InContainer? && SiteIsUnique(sc, p) && Sane(ContainerAt(sc, p), p.index)
    ensures InsertOk(sc, p, item)
    ensures Takes(sc, p, item) <==> HasRoom(ContainerAt(sc, p)) && MayCarry(sc, p, item)
  {
    match Site(p) {
      case Tile(pos) =>
        if pos in sc.tiles {
          AllFitIff(sc.tiles[pos].items, p.guid, p.index);
          PutsWhereAsked(sc.tiles[pos].items, p.guid, p.index, item);
        }
      case Slot(s, k) =>
    }
  }

  lemma ContainerAfterInserting(sc: Scene, p: ItemPlacement, index: Option<nat>, item: Item)
    requires p.InContainer? && SiteIsUnique(sc, p) && Takes(sc, p, item)
    ensures HasRoom(ContainerAt(sc, p)) && p.index <= |ContainerAt(sc, p).value.inside|
    ensures var c := ContainerAt(sc, p).value;
            ContainerAt(Inserted(sc, p, index, item), p) == Some(c.(inside := Spliced(c.inside, p.index, item)))
  {
    match Site(p) {
      case Tile(pos) => PutsWhereAsked(sc.tiles[pos].items, p.guid, p.index, item);
      case Slot(s, k) =>
        PutOneFinds(BagOf(sc.agents, k)[s], p.guid, p.index, item);
        BagWritten(sc.agents, k, Packed(BagOf(sc.agents, k), s, p.guid, p.index, item));
    }
  }

  lemma {:induction false} FoundBeforeTheRest(items: seq<Item>, more: seq<Item>, g: Guid)
    requires FindIn(items, g).Some?
    ensures FindIn(items + more, g) == FindIn(items, g)
  {
    assert (items + more)[1..] == items[1..] + more;
    if FindByGuid(items[0], g).None? { FoundBeforeTheRest(items[1..], more, g); }
  }

  // What is laid on top of a tile hides nothing that was there.
  lemma ContainerUnderTheTop(sc: Scene, p: ItemPlacement, pos: Position, item: Item)
    requires p.InContainer? && pos in sc.tiles && (Site(p).Tile? ==> ContainerAt(sc, p).Some?)
    ensures ContainerAt(sc.(tiles := WithOneMore(sc.tiles, pos, None, item)), p) == ContainerAt(sc, p)
  {
    if Site(p) == Tile(pos) {
      var items := sc.tiles[pos].items;
      FoundBeforeTheRest(items, [item], p.guid);
      assert Spliced(items, |items|, item) == items + [item];
    }
  }

  // The item is in the container its placement names, at its index.
  ghost predicate LiesIn(sc: Scene, p: ItemPlacement, g: Guid)
    requires p.InContainer?
  {
    var c := ContainerAt(sc, p);
    c.Some? && c.value.Holder? && p.index < |c.value.inside| && c.value.inside[p.index].guid == g
  }

  // Taking it leaves the container there, and smaller by what was taken.
  lemma ContainerAfterTaking(sc: Scene, p: ItemPlacement, g: Guid, amount: U8, newName: Guid)
    requires p.InContainer? && LiesIn(sc, p, g) && CanTake(sc, p, g, amount, newName) && Unique(SceneTally(sc))
    ensures var (c, i) := (ContainerAt(sc, p).value, p.index);
            && c.inside[i].amount >= amount
            && ContainerAt(Removed(sc, p, g, amount, newName), p)
               == Some(c.(inside := TakenAt(c.inside, i, amount, newName)))
  {
    match Site(p) {
      case Tile(pos) =>
        TileIsUnique(sc, pos);
        TakesFromContainer(sc.tiles[pos].items, p.guid, p.index, amount, newName);
      case Slot(s, k) =>
        var it := BagOf(sc.agents, k)[s];
        SlotIsUnique(sc, k, s);
        OneIsFound(it, p.guid);
        TallyOne(it);
        TakesFromContainer([it], p.guid, p.index, amount, newName);
        var rest := TakeFrom([it], g, amount, newName).value.rest;
        TakeKeepsTheOuter(it, g, amount, newName);
        OneIsFound(rest[0], p.guid);
        BagWritten(sc.agents, k, Drawn(BagOf(sc.agents, k), s, g, amount, newName));
    }
  }

  lemma OneIsFound(it: Item, g: Guid)
    ensures FindIn([it], g) == FindByGuid(it, g)
  {
    assert [it][1..] == [];
  }
}
