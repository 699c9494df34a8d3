/**
 What returning an item comes to, at the place it is returned to: the first stack of its kind
 with room there is topped up, and what is left becomes an entry of its own.
 */
module ReturnLaws {
  import opened Wrappers
  import opened Positions
  import opened Items
  import opened Inventories
  import opened GameMaps
  import opened Ledgers
  import opened Scenes
  import opened ItemMovement
  import opened Returns

  // ---------------------------------------------------------------- the stacks of a place

  // What lies at a place: the items of the tile, the item of the slot, or the contents of the
  // container found there.
  ghost function ListAt(sc: Scene, p: ItemPlacement): Option<seq<Item>> {
    match p
    case OnMap(pos) => if pos in sc.tiles then Some(sc.tiles[pos].items) else None
    case InInventory(s, k) =>
      if IsPlayerOf(sc.agents, k) && s in BagOf(sc.agents, k) then Some([BagOf(sc.agents, k)[s]]) else None
    case InContainer(_, _, _) =>
      var c := ContainerAt(sc, p);
      if c.Some? && c.value.Holder? then Some(c.value.inside) else None
  }

  predicate HasSpaceFor(stack: Item, item: Item) {
    stack.config.id == item.config.id && Cumulative in stack.config.flags && stack.amount < 100
  }

  ghost predicate IsFirst(items: seq<Item>, item: Item, i: nat) {
    && i < |items| && HasSpaceFor(items[i], item)
    && forall j :: 0 <= j < i ==> !HasSpaceFor(items[j], item)
  }

  ghost predicate NoneHasSpace(items: seq<Item>, item: Item) {
    forall j :: 0 <= j < |items| ==> !HasSpaceFor(items[j], item)
  }

  // The i-th stack topped up from `item`, as far as a hundred.
  function ToppedUp(items: seq<Item>, i: nat, item: Item): seq<Item>
    requires i < |items|
  {
    items[i := items[i].(amount := Min(items[i].amount + item.amount, 100))]
  }

  function Remaining(stack: Item, item: Item): Item
    requires stack.amount <= 100
  {
    item.(amount := item.amount - Min(item.amount, 100 - stack.amount))
  }

  lemma {:induction false} FindsTheFirst(items: seq<Item>, item: Item)
    ensures match FindLike(items, item.config.id)
            case None => NoneHasSpace(items, item)
            case Some(i) => IsFirst(items, item, i)
  {
    if items != [] { FindsTheFirst(items[1..], item); }
  }

  lemma OnlyOneIsFirst(items: seq<Item>, item: Item, i: nat, j: nat)
    requires IsFirst(items, item, i) && IsFirst(items, item, j)
    ensures i == j
  {
  }

  // Units go from the item to the first stack with space, and nowhere if there is none.
  lemma MergingHereMeans(items: seq<Item>, item: Item)
    ensures MergeHere(items, item).None? <==> NoneHasSpace(items, item)
    ensures forall i: nat :: IsFirst(items, item, i) ==>
              MergeHere(items, item)
              == Some(Merged(ToppedUp(items, i, item), Remaining(items[i], item),
                             Min(item.amount, 100 - items[i].amount)))
  {
    FindsTheFirst(items, item);
    forall i: nat | IsFirst(items, item, i) ensures FindLike(items, item.config.id) == Some(i) {
      OnlyOneIsFirst(items, item, i, FindLike(items, item.config.id).value);
    }
  }

  // ---------------------------------------------------------------- merging at a place

  // Nothing is different but on the tile, or in the slot, of the placement.
  ghost predicate SameElsewhere(sc: Scene, p: ItemPlacement, after: Scene) {
    match Site(p)
    case Tile(pos) => after.agents == sc.agents && after.tiles - {pos} == sc.tiles - {pos}
    case Slot(s, k) =>
      && after.tiles == sc.tiles && after.agents - {k} == sc.agents - {k}
      && (IsPlayerOf(sc.agents, k) ==>
            IsPlayerOf(after.agents, k) && BagOf(after.agents, k) - {s} == BagOf(sc.agents, k) - {s})
  }

  lemma MergingInMeans(items: seq<Item>, g: Guid, item: Item, i: nat)
    requires FindIn(items, g).Some? && FindIn(items, g).value.Holder?
    requires IsFirst(FindIn(items, g).value.inside, item, i)
    ensures var c := FindIn(items, g).value;
            && MergeInto(items, Some(g), item).Some?
            && MergeInto(items, Some(g), item).value.item == Remaining(c.inside[i], item)
            && MergeInto(items, Some(g), item).value.moved == Min(item.amount, 100 - c.inside[i].amount)
            && FindIn(MergeInto(items, Some(g), item).value.items, g)
               == Some(c.(inside := ToppedUp(c.inside, i, item)))
  {
    var c := FindIn(items, g).value;
    MergingHereMeans(c.inside, item);
    FoundIsNamed(items, g);
    ReplacedInIsFound(items, g, c.(inside := ToppedUp(c.inside, i, item)));
  }

  lemma {:induction false} FoundIsNamed(items: seq<Item>, g: Guid)
    requires FindIn(items, g).Some?
    ensures FindIn(items, g).value.guid == g
  {
    if FindByGuid(items[0], g).Some? { OneIsNamed(items[0], g); } else { FoundIsNamed(items[1..], g); }
  }

  lemma {:induction false} OneIsNamed(it: Item, g: Guid)
    requires FindByGuid(it, g).Some?
    ensures FindByGuid(it, g).value.guid == g
  {
    FoundIffNamed(it, g);
  }

  lemma MergingOnTileMeans(sc: Scene, p: ItemPlacement, item: Item, i: nat)
    requires Site(p).Tile? && ListAt(sc, p).Some? && IsFirst(ListAt(sc, p).value, item, i) && item.amount > 0
    ensures MergedFirst(sc, p, item, i)
  {
    var items := sc.tiles[Site(p).pos].items;
    if p.InContainer? {
      MergingInMeans(items, p.guid, item, i);
    } else {
      MergingHereMeans(items, item);
    }
  }

  lemma MergingInBagMeans(sc: Scene, p: ItemPlacement, item: Item, i: nat)
    requires Site(p).Slot? && p.InContainer? && ListAt(sc, p).Some?
    requires IsFirst(ListAt(sc, p).value, item, i) && item.amount > 0
    ensures MergedFirst(sc, p, item, i)
  {
    var (s, k) := (Site(p).slot, Site(p).agent);
    var it := BagOf(sc.agents, k)[s];
    OneIsFound(it, p.guid);
    MergingInMeans([it], p.guid, item, i);
    var m := MergeInto([it], Some(p.guid), item).value;
    OneIsFound(m.items[0], p.guid);
    assert m.items == [m.items[0]];
    BagWritten(sc.agents, k, BagOf(sc.agents, k)[s := m.items[0]]);
  }

  lemma MergingInSlotMeans(sc: Scene, s: InventorySlot, k: AgentKey, item: Item, i: nat)
    requires ListAt(sc, InInventory(s, k)).Some? && IsFirst(ListAt(sc, InInventory(s, k)).value, item, i)
    requires item.amount > 0
    ensures MergedFirst(sc, InInventory(s, k), item, i)
  {
    var it := BagOf(sc.agents, k)[s];
    MergingHereMeans([it], item);
    var x := ToppedUp([it], i, item)[0];
    assert ToppedUp([it], i, item) == [x];
    BagWritten(sc.agents, k, BagOf(sc.agents, k)[s := x]);
  }

  // The i-th stack of the place is topped up, and the item has that much less.
  ghost predicate MergedFirst(sc: Scene, p: ItemPlacement, item: Item, i: nat)
    requires ListAt(sc, p).Some? && i < |ListAt(sc, p).value| && ListAt(sc, p).value[i].amount <= 100
  {
    var items := ListAt(sc, p).value;
    && Merging(sc, p, item).Some?
    && ListAt(AfterMerging(sc, p, item), p) == Some(ToppedUp(items, i, item))
    && LeftAfterMerging(sc, p, item) == Remaining(items[i], item)
  }

  // Units move exactly when there are some, and the place has a stack of the item's kind with
  // space for them; and then they go to the first such stack, up to a hundred.
  lemma MergingMeans(sc: Scene, p: ItemPlacement, item: Item)
    ensures Merging(sc, p, item).Some? <==>
              item.amount > 0 && ListAt(sc, p).Some? && !NoneHasSpace(ListAt(sc, p).value, item)
    ensures forall i: nat :: ListAt(sc, p).Some? && IsFirst(ListAt(sc, p).value, item, i) && item.amount > 0 ==>
              MergedFirst(sc, p, item, i)
    ensures Merging(sc, p, item).None? ==> AfterMerging(sc, p, item) == sc && LeftAfterMerging(sc, p, item) == item
    ensures SameElsewhere(sc, p, AfterMerging(sc, p, item))
  {
    if item.amount == 0 || ListAt(sc, p).None? || NoneHasSpace(ListAt(sc, p).value, item) {
      NoMergeWithout(sc, p, item);
    }
    if ListAt(sc, p).Some? && item.amount > 0 {
      FindsTheFirst(ListAt(sc, p).value, item);
      forall i: nat | IsFirst(ListAt(sc, p).value, item, i) ensures MergedFirst(sc, p, item, i) {
        if Site(p).Tile? {
          MergingOnTileMeans(sc, p, item, i);
        } else if p.InContainer? {
          MergingInBagMeans(sc, p, item, i);
        } else {
          MergingInSlotMeans(sc, p.slot, p.agent, item, i);
        }
      }
    }
    MergingStaysThere(sc, p, item);
  }

  lemma NoMergeWithout(sc: Scene, p: ItemPlacement, item: Item)
    requires item.amount == 0 || ListAt(sc, p).None? || NoneHasSpace(ListAt(sc, p).value, item)
    ensures Merging(sc, p, item).None?
  {
    if ListAt(sc, p).Some? { MergingHereMeans(ListAt(sc, p).value, item); }
    if ListAt(sc, p).Some? && !NoneHasSpace(ListAt(sc, p).value, item) { FindsTheFirst(ListAt(sc, p).value, item); }
    match Site(p) {
      case Tile(pos) => if pos in sc.tiles { NoUnitsMove(sc.tiles[pos].items, ContainerName(p), item); }
      case Slot(s, k) =>
        if IsPlayerOf(sc.agents, k) && s in BagOf(sc.agents, k) {
          var it := BagOf(sc.agents, k)[s];
          if p.InContainer? { OneIsFound(it, p.guid); }
          NoUnitsMove([it], ContainerName(p), item);
        }
    }
  }

  lemma NoUnitsMove(items: seq<Item>, container: Option<Guid>, item: Item)
    requires match container
             case None => item.amount == 0 || NoneHasSpace(items, item)
             case Some(g) =>
               var c := FindIn(items, g);
               c.None? || c.value.Solid? || item.amount == 0 || NoneHasSpace(c.value.inside, item)
    ensures MergeInList(items, container, item).None?
  {
    var here := if container.None? then items
                else if FindIn(items, container.value).None? then [] else Inside(FindIn(items, container.value).value);
    MergingHereMeans(here, item);
    FindsTheFirst(here, item);
  }

  lemma MergingStaysThere(sc: Scene, p: ItemPlacement, item: Item)
    ensures SameElsewhere(sc, p, AfterMerging(sc, p, item))
  {
  }

  // ---------------------------------------------------------------- an entry of its own

  // The place takes one entry more: the tile is there; the slot is free; the container is found
  // there with a capacity and space; and who is to carry it can.
  ghost predicate TakesAnEntry(sc: Scene, p: ItemPlacement, item: Item) {
    && (Site(p).Slot? ==>
          && IsPlayerOf(sc.agents, Site(p).agent)
          && sc.agents[Site(p).agent].inner.inventory.carriedWeight + TotalWeight(item)
             <= sc.agents[Site(p).agent].inner.capacity)
    && match p
       case OnMap(pos) => pos in sc.tiles
       case InInventory(s, k) => s !in BagOf(sc.agents, k)
       case InContainer(_, _, _) =>
         var c := ContainerAt(sc, p);
         && c.Some? && c.value.Holder? && c.value.config.capacity.Some?
         && |c.value.inside| < c.value.config.capacity.value
  }

  lemma InsertableIsSane(sc: Scene, p: ItemPlacement)
    requires p.InContainer? && Insertable(sc, p) && Unique(SceneTally(sc))
    ensures Sane(ContainerAt(sc, p), p.index) && SiteIsUnique(sc, p)
  {
    if Site(p).Tile? && Site(p).pos in sc.tiles {
      TileIsUnique(sc, Site(p).pos);
      AllFitIff(sc.tiles[Site(p).pos].items, p.guid, p.index);
    }
  }

  lemma TakesAnEntryIff(sc: Scene, p: ItemPlacement, item: Item)
    requires Insertable(sc, p) && Unique(SceneTally(sc))
    ensures !SlotTaken(sc.agents, p) && Takes(sc, p, item) <==> TakesAnEntry(sc, p, item)
  {
    if p.InContainer? {
      InsertableIsSane(sc, p);
      TakesIff(sc, p, item);
    }
  }

  // The item lies where it was to lie, on a tile at its index or on top; or on top of the tile
  // at the player's feet, if the place does not take it; or nowhere, if there is no player.
  lemma PuttingBackMeans(sc: Scene, p: ItemPlacement, index: Option<nat>, item: Item, feet: Option<Position>)
    requires Insertable(sc, p) && IndexOk(sc, p, index) && Unique(SceneTally(sc))
    requires feet.Some? ==> feet.value in sc.tiles
    ensures var (ok, after) := AfterPuttingBack(sc, p, index, item, feet);
            if TakesAnEntry(sc, p, item)
            then ok && Rests(after, p, item) && (p.OnMap? ==> LiesAt(sc, p.pos, index, item, after))
            else if feet.Some? then ok && LiesAt(sc, feet.value, None, item, after)
            else !ok && after == sc
  {
    TakesAnEntryIff(sc, p, item);
    if TakesAnEntry(sc, p, item) { InsertingRests(sc, p, index, item); }
  }

  // One item more on the tile, and nothing else different.
  ghost predicate LiesAt(sc: Scene, pos: Position, index: Option<nat>, item: Item, after: Scene) {
    && pos in sc.tiles && pos in after.tiles && after.agents == sc.agents
    && var items := sc.tiles[pos].items;
       var i := if index.Some? then index.value else |items|;
       i <= |items| && after.tiles == sc.tiles[pos := sc.tiles[pos].(items := items[..i] + [item] + items[i..])]
  }

  // ---------------------------------------------------------------- the return

  // With no stack to go to, the item becomes an entry of its own. Else the first such stack is
  // topped up, and what is left over - if anything - becomes one.
  lemma ReturningMeans(sc: Scene, p: ItemPlacement, index: Option<nat>, item: Item, feet: Option<Position>)
    ensures item.amount == 0 || ListAt(sc, p).None? || NoneHasSpace(ListAt(sc, p).value, item) ==>
              AfterReturning(sc, p, index, item, feet) == AfterPuttingBack(sc, p, index, item, feet)
    ensures forall i: nat :: item.amount > 0 && ListAt(sc, p).Some? && IsFirst(ListAt(sc, p).value, item, i) ==>
              var (items, merged) := (ListAt(sc, p).value, AfterMerging(sc, p, item));
              && ListAt(merged, p) == Some(ToppedUp(items, i, item)) && SameElsewhere(sc, p, merged)
              && AfterReturning(sc, p, index, item, feet)
                 == if item.amount <= 100 - items[i].amount then (true, merged)
                    else AfterPuttingBack(merged, p, index, Remaining(items[i], item), feet)
  {
    MergingMeans(sc, p, item);
    if item.amount == 0 || ListAt(sc, p).None? || NoneHasSpace(ListAt(sc, p).value, item) {
      NoMergeWithout(sc, p, item);
    }
  }
}
