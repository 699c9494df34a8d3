/**
 A player's move of an item, from wherever it is: check, take out, make room, put in - and
 put back when the target refuses.
 */
module Moves {
  import opened Wrappers
  import opened Positions
  import opened Items
  import opened Inventories
  import opened Chunks
  import opened GameMaps
  import opened Scenes
  import opened Events
  import opened Ticks
  import opened ItemMovement
  import opened CarriedSearch
  import LineOfSight

  // ---------------------------------------------------------------- what is allowed

  function HasFlag(items: seq<Item>, flag: ItemFlag): bool {
    exists i :: 0 <= i < |items| && flag in items[i].config.flags
  }

  function IsTile(chunks: ChunkMap): Position -> bool { p => TileAt(chunks, p).Some? }

  function Sight(chunks: ChunkMap): Position -> bool {
    p => TileAt(chunks, p).Some? ==> !HasFlag(TileAt(chunks, p).value.items, Unpass)
  }

  // Ground to lie on, and nothing that takes up the whole tile.
  predicate CanDrop(chunks: ChunkMap, p: Position) {
    TileAt(chunks, p).Some? && HasFlag(TileAt(chunks, p).value.items, FullBank)
    && !HasFlag(TileAt(chunks, p).value.items, Bottom)
  }

  predicate MayGoInside(it: Option<Item>, container: Guid, source: Guid, target: Option<Item>) {
    || (it.Some? && Take in it.value.config.flags)
    || (&& it.Some? && container == source && target.Some? && AmmoContainer in target.value.config.flags
        && !it.value.config.isAmmo)
  }

  ghost predicate TargetAllowed(chunks: ChunkMap, agents: Agents, from: Position, it: Option<Item>, guid: Guid,
                                to: ItemPlacement) {
    match (Site(to), Container(to))
    case (Tile(p), None) =>
      CanDrop(chunks, p) && PlayerViewport(from).Contains(p)
      && LineOfSight.Throwable(IsTile(chunks), Sight(chunks), from, p, false)
    case (Slot(s, _), None) => it.Some? && FitsSlot(it.value, s)
    case (_, Some((g, _))) => MayGoInside(it, g, guid, FindItem(chunks, agents, SitePlacement(to), g))
  }

  ghost predicate Allowed(chunks: ChunkMap, agents: Agents, feet: Position, source: ItemPlacement, guid: Guid,
                          amount: U8, to: ItemPlacement) {
    && (source.OnMap? ==> IsWithin(feet, source.pos, 1))
    && var it := FindItem(chunks, agents, source, guid);
    && (it.Some? ==> Unmove !in it.value.config.flags && it.value.amount >= amount)
    && TargetAllowed(chunks, agents, feet, it, guid, to)
  }

  method IsTargetAllowed(chunks: ChunkMap, agents: Agents, from: Position, it: Option<Item>, guid: Guid,
                         to: ItemPlacement)
    returns (ok: bool)
    ensures ok <==> TargetAllowed(chunks, agents, from, it, guid, to)
  {
    match (Site(to), Container(to)) {
      case (Tile(p), None) =>
        if !CanDrop(chunks, p) || !PlayerViewport(from).Contains(p) { return false; }
        ok := LineOfSight.CanThrow(IsTile(chunks), Sight(chunks), from, p, false);
      case (Slot(s, _), None) => ok := it.Some? && FitsSlot(it.value, s);
      case (_, Some((g, _))) => ok := MayGoInside(it, g, guid, FindItem(chunks, agents, SitePlacement(to), g));
    }
  }

  method IsAllowed(ctx: TickCtx, k: AgentKey, source: ItemPlacement, guid: Guid, amount: U8, to: ItemPlacement)
    returns (ok: bool)
    requires ctx.Valid() && ctx.IsPlayer(k)
    ensures k in ctx.world.places
    ensures ok <==> Allowed(ctx.world.chunks, ctx.world.agents, ctx.world.places[k], source, guid, amount, to)
    ensures ok <==> MayBegin(ctx.Now(), ctx.world.places[k], source, guid, amount, to)
  {
    assert k in ctx.world.places;
    var feet := ctx.world.places[k];
    AllowedIff(ctx.world.chunks, ctx.Now(), feet, source, guid, amount, to);
    if source.OnMap? && !IsWithin(feet, source.pos, 1) { return false; }
    var it := FindItem(ctx.world.chunks, ctx.world.agents, source, guid);
    if it.Some? && (Unmove in it.value.config.flags || it.value.amount < amount) { return false; }
    ok := IsTargetAllowed(ctx.world.chunks, ctx.world.agents, feet, it, guid, to);
  }

  // ---------------------------------------------------------------- what that means

  ghost predicate Mirrors(chunks: ChunkMap, tiles: Tiles) {
    forall p {:trigger TileAt(chunks, p)} :: TileAt(chunks, p) == if p in tiles then Some(tiles[p]) else None
  }

  // What a search of the whole tile or of the slot's whole tree finds.
  ghost function FoundAtSite(sc: Scene, p: ItemPlacement, g: Guid): Option<Item> {
    match Site(p)
    case Tile(pos) => if pos in sc.tiles then FindIn(sc.tiles[pos].items, g) else None
    case Slot(s, k) =>
      if IsPlayerOf(sc.agents, k) && s in BagOf(sc.agents, k) then FindByGuid(BagOf(sc.agents, k)[s], g) else None
  }

  // The item a placement and a name single out: on a tile or in a slot wherever it is there, in
  // a container only at the index.
  ghost function NamedAt(sc: Scene, p: ItemPlacement, g: Guid): Option<Item>
    decreases p
  {
    match p
    case InContainer(c, within, i) =>
      var parent := NamedAt(sc, within, c);
      if parent.Some? && parent.value.Holder? && i < |parent.value.inside| && parent.value.inside[i].guid == g
      then Some(parent.value.inside[i]) else None
    case _ => FoundAtSite(sc, p, g)
  }

  // A tile in view of `feet` - across floors, over tiles all the way down, and never between
  // the surface and the underground - that things can lie on.
  ghost predicate MayLieOn(sc: Scene, feet: Position, p: Position) {
    && p in sc.tiles
    && (exists i :: 0 <= i < |sc.tiles[p].items| && FullBank in sc.tiles[p].items[i].config.flags)
    && (forall i :: 0 <= i < |sc.tiles[p].items| ==> Bottom !in sc.tiles[p].items[i].config.flags)
    && -9 <= p.x - feet.x <= 9 && -7 <= p.y - feet.y <= 7
    && (p.z <= 7 <==> feet.z <= 7)
    && (forall z: U8 :: feet.z < z <= p.z ==> Position(p.x, p.y, z) in sc.tiles)
    && LineOfSight.SightClear(q => q in sc.tiles ==> Transparent(sc.tiles[q].items), feet, p, Min(feet.z, p.z))
  }

  predicate Transparent(items: seq<Item>) {
    forall i :: 0 <= i < |items| ==> Unpass !in items[i].config.flags
  }

  // What a move needs to begin. A tile it comes from is at most one step away, and the item is
  // no fixture and has as many units as are to be moved. It may go onto a tile; into the slot
  // it belongs in, the left hand being that of what takes both; into a container if it can be
  // carried. (An item that cannot is only let into itself, and if that holds ammunition.)
  ghost predicate MayBegin(sc: Scene, feet: Position, source: ItemPlacement, guid: Guid, amount: U8,
                           to: ItemPlacement) {
    var it := NamedAt(sc, source, guid);
    && (source.OnMap? ==>
          && source.pos.z == feet.z
          && -1 <= source.pos.x - feet.x <= 1 && -1 <= source.pos.y - feet.y <= 1)
    && (it.Some? ==> Unmove !in it.value.config.flags && amount <= it.value.amount)
    && match to
       case OnMap(p) => MayLieOn(sc, feet, p)
       case InInventory(s, _) =>
         && it.Some?
         && (it.value.config.slot == Some(s) || (it.value.config.slot == Some(BothHands) && s == LeftHand))
       case InContainer(c, _, _) =>
         && it.Some?
         && (|| Take in it.value.config.flags
             || (&& c == guid && !it.value.config.isAmmo && FoundAtSite(sc, to, c).Some?
                 && AmmoContainer in FoundAtSite(sc, to, c).value.config.flags))
  }

  lemma {:induction false} FindsWhatIsNamed(chunks: ChunkMap, sc: Scene, p: ItemPlacement, g: Guid)
    requires Mirrors(chunks, sc.tiles)
    ensures FindItem(chunks, sc.agents, p, g) == NamedAt(sc, p, g)
    decreases p
  {
    if p.InContainer? { FindsWhatIsNamed(chunks, sc, p.within, p.guid); }
  }

  lemma SiteIsSearched(chunks: ChunkMap, sc: Scene, p: ItemPlacement, g: Guid)
    requires Mirrors(chunks, sc.tiles)
    ensures FindItem(chunks, sc.agents, SitePlacement(p), g) == FoundAtSite(sc, p, g)
  {
  }

  lemma SameSight(a: LineOfSight.Sight, b: LineOfSight.Sight, from: Position, to: Position, z: U8)
    requires forall p :: a(p) == b(p)
    ensures LineOfSight.SightClear(a, from, to, z) == LineOfSight.SightClear(b, from, to, z)
  {
  }

  lemma TileAllowedIff(chunks: ChunkMap, sc: Scene, feet: Position, p: Position)
    requires Mirrors(chunks, sc.tiles)
    ensures CanDrop(chunks, p) && PlayerViewport(feet).Contains(p)
            && LineOfSight.Throwable(IsTile(chunks), Sight(chunks), feet, p, false)
            <==> MayLieOn(sc, feet, p)
  {
    SameSight(Sight(chunks), q => q in sc.tiles ==> Transparent(sc.tiles[q].items), feet, p, Min(feet.z, p.z));
  }

  // The checks of the server are these conditions.
  lemma AllowedIff(chunks: ChunkMap, sc: Scene, feet: Position, source: ItemPlacement, guid: Guid, amount: U8,
                   to: ItemPlacement)
    requires Mirrors(chunks, sc.tiles)
    ensures Allowed(chunks, sc.agents, feet, source, guid, amount, to)
            <==> MayBegin(sc, feet, source, guid, amount, to)
  {
    FindsWhatIsNamed(chunks, sc, source, guid);
    match to {
      case OnMap(p) => TileAllowedIff(chunks, sc, feet, p);
      case InInventory(_, _) =>
      case InContainer(c, _, _) => SiteIsSearched(chunks, sc, to, c);
    }
  }

  // ---------------------------------------------------------------- placing and putting back

  // The scene after making room and inserting, or after as much of it as was done.
  ghost function Placed(sc: Scene, k: AgentKey, to: ItemPlacement, item: Item, source: ItemPlacement, feet: Position)
    : (bool, Scene)
    requires IsPlayerOf(sc.agents, k) && feet in sc.tiles && Unique(SceneTally(sc))
  {
    if to.InInventory? then
      var (ok, room) := RoomMade(sc, k, to.slot, item, source, feet);
      if ok && Takes(room, to, item) then (true, Inserted(room, to, None, item)) else (false, room)
    else if Takes(sc, to, item) then (true, Inserted(sc, to, None, item))
    else (false, sc)
  }

  ghost predicate PlaceOk(sc: Scene, k: AgentKey, to: ItemPlacement, item: Item, source: ItemPlacement)
    requires IsPlayerOf(sc.agents, k)
  {
    if to.InInventory?
    then DislodgeOk(sc, k, to.slot, source) && item.config.slot.Some? && WearsSlotted(BagOf(sc.agents, k))
    else InsertOk(sc, to, item)
  }

  method Place(ctx: TickCtx, k: AgentKey, to: ItemPlacement, item: Item, source: ItemPlacement)
    returns (r: Result<(), MovementError>)
    requires ctx.Valid() && ctx.IsPlayer(k) && Unique(SceneTally(ctx.Now())) && PlaceOk(ctx.Now(), k, to, item, source)
    requires Site(to).Slot? ==> Site(to).agent == k
    modifies ctx`events, ctx.world`chunks, ctx.world`tiles, ctx.world`agents
    ensures ctx.Valid()
    ensures k in ctx.world.places && ctx.world.places[k] in old(ctx.world.tiles)
    ensures (r.Ok?, ctx.Now()) == Placed(old(ctx.Now()), k, to, item, source, ctx.world.places[k])
  {
    assert k in ctx.world.places && ctx.world.places[k] in ctx.world.tiles;
    if to.InInventory? {
      r := MakeRoom(ctx, k, to.slot, item, source);
      if r.Err? { return; }
    }
    r := InsertItemAt(ctx, item, to, None);
  }

  // The item goes to its target; or, if it must, back to where it came from; or nowhere.
  ghost function Settled(sc: Scene, k: AgentKey, to: ItemPlacement, item: Item, source: ItemPlacement,
                         index: Option<nat>, feet: Position): (bool, Scene)
    requires IsPlayerOf(sc.agents, k) && feet in sc.tiles && Unique(SceneTally(sc))
  {
    var (ok, p) := Placed(sc, k, to, item, source, feet);
    if ok then (true, p)
    else (false, if Takes(p, source, item) && IndexOk(p, source, index) then Inserted(p, source, index, item) else p)
  }

  ghost predicate ReturnOk(sc: Scene, k: AgentKey, to: ItemPlacement, item: Item, source: ItemPlacement,
                           index: Option<nat>, feet: Position)
    requires IsPlayerOf(sc.agents, k) && feet in sc.tiles && Unique(SceneTally(sc))
  {
    var (ok, p) := Placed(sc, k, to, item, source, feet);
    !ok ==> InsertOk(p, source, item) && IndexOk(p, source, index)
  }

  method Settle(ctx: TickCtx, k: AgentKey, to: ItemPlacement, item: Item, source: ItemPlacement, index: Option<nat>)
    returns (ok: bool)
    requires ctx.Valid() && ctx.IsPlayer(k) && Unique(SceneTally(ctx.Now())) && PlaceOk(ctx.Now(), k, to, item, source)
    requires Site(to).Slot? ==> Site(to).agent == k
    requires k in ctx.world.places && ctx.world.places[k] in ctx.world.tiles ==>
               ReturnOk(ctx.Now(), k, to, item, source, index, ctx.world.places[k])
    modifies ctx`events, ctx.world`chunks, ctx.world`tiles, ctx.world`agents
    ensures ctx.Valid()
    ensures k in ctx.world.places && ctx.world.places[k] in old(ctx.world.tiles)
    ensures (ok, ctx.Now()) == Settled(old(ctx.Now()), k, to, item, source, index, ctx.world.places[k])
  {
    assert k in ctx.world.places && ctx.world.places[k] in ctx.world.tiles;
    var placed := Place(ctx, k, to, item, source);
    if placed.Ok? { return true; }
    var _ := InsertItemAt(ctx, item, source, index);
    return false;
  }

  // ---------------------------------------------------------------- the move

  // `Refused` is a move that began: the item was taken out, and the target would not have it.
  datatype Outcome = Ignored | Denied | Moved | Refused

  // What a placement singles out is what a search of its whole site finds.
  lemma {:induction false} NamedIsAtSite(sc: Scene, p: ItemPlacement, g: Guid)
    requires Unique(SceneTally(sc)) && NamedAt(sc, p, g).Some?
    ensures FoundAtSite(sc, p, g) == NamedAt(sc, p, g)
    ensures p.InContainer? ==> LiesIn(sc, p, g)
    decreases p
  {
    match p
    case OnMap(_) =>
    case InInventory(_, _) =>
    case InContainer(c, within, i) =>
      NamedIsAtSite(sc, within, c);
      match Site(p) {
        case Tile(pos) =>
          TileIsUnique(sc, pos);
          FoundInside(sc.tiles[pos].items, c, i);
        case Slot(s, k) =>
          SlotIsUnique(sc, k, s);
          NestedFoundInside(BagOf(sc.agents, k)[s], c, i);
      }
  }

  // Where names are unique, the item taken is the one found on its site, or a piece of it.
  lemma TakenIsFound(sc: Scene, p: ItemPlacement, g: Guid, amount: U8, newName: Guid)
    requires CanTake(sc, p, g, amount, newName) && Unique(SceneTally(sc))
    ensures var x := FoundAtSite(sc, p, g);
            x.Some? && IsTakenFrom(TakenOf(sc, p, g, amount, newName).removed, x.value, amount, newName)
  {
    match Site(p) {
      case Tile(pos) =>
        TileIsUnique(sc, pos);
        TakesWhatIsFound(sc.tiles[pos].items, g, amount, newName);
      case Slot(s, k) =>
        SlotIsUnique(sc, k, s);
        TallyOne(BagOf(sc.agents, k)[s]);
        OneIsFound(BagOf(sc.agents, k)[s], g);
        TakesWhatIsFound([BagOf(sc.agents, k)[s]], g, amount, newName);
    }
  }

  // ---------------------------------------------------------------- no step of a move panics

  lemma RemovedIsUnique(sc: Scene, p: ItemPlacement, g: Guid, amount: U8, newName: Guid)
    requires CanTake(sc, p, g, amount, newName) && Unique(SceneTally(sc)) && Name(newName) !in SceneTally(sc)
    ensures Unique(SceneTally(Removed(sc, p, g, amount, newName)))
    ensures Unique(SceneTally(Removed(sc, p, g, amount, newName)) + Tally(TakenOf(sc, p, g, amount, newName).removed))
  {
    TakingBalances(sc, p, g, amount, newName);
    StillUnique(SceneTally(sc), TakenOf(sc, p, g, amount, newName).removed, newName,
                SceneTally(Removed(sc, p, g, amount, newName)));
  }

  lemma RemovedKeeps(sc: Scene, k: AgentKey, p: ItemPlacement, g: Guid, amount: U8, newName: Guid)
    requires CanTake(sc, p, g, amount, newName) && IsPlayerOf(sc.agents, k) && WearsSlotted(BagOf(sc.agents, k))
    ensures var sc1 := Removed(sc, p, g, amount, newName);
            && sc1.tiles.Keys == sc.tiles.Keys && IsPlayerOf(sc1.agents, k)
            && sc1.agents[k].inner.capacity == sc.agents[k].inner.capacity
            && WearsSlotted(BagOf(sc1.agents, k))
            && IndexOk(sc1, p, PlaceTaken(sc, p, g, amount, newName))
  {
    match Site(p) {
      case Tile(pos) => TakenFromWhere(sc.tiles[pos].items, g, amount, newName);
      case Slot(s, j) =>
        TakeKeepsTheOuter(BagOf(sc.agents, j)[s], g, amount, newName);
        BagWritten(sc.agents, j, Drawn(BagOf(sc.agents, j), s, g, amount, newName));
    }
  }

  // The container an item came from has a capacity and the index is within its contents,
  // before and after the taking.
  ghost predicate SaneSource(sc: Scene, p: ItemPlacement) {
    p.InContainer? ==> Sane(ContainerAt(sc, p), p.index)
  }

  lemma TakingKeepsTheSource(sc: Scene, p: ItemPlacement, g: Guid, amount: U8, newName: Guid)
    requires CanTake(sc, p, g, amount, newName) && Unique(SceneTally(sc)) && SaneSource(sc, p)
    requires p.InContainer? ==> LiesIn(sc, p, g)
    ensures SaneSource(Removed(sc, p, g, amount, newName), p)
    ensures p.InContainer? ==> ContainerAt(Removed(sc, p, g, amount, newName), p).Some?
  {
    if p.InContainer? { ContainerAfterTaking(sc, p, g, amount, newName); }
  }

  // What the dislodged item finds at the source.
  lemma EmptyingKeepsTheSource(sc: Scene, k: AgentKey, slot: InventorySlot, p: ItemPlacement)
    requires IsPlayerOf(sc.agents, k) && p.InContainer?
    ensures var emptied := WithSlots(sc, k, BagOf(sc.agents, k) - {slot});
            && (SiteIsUnique(sc, p) ==> SiteIsUnique(emptied, p))
            && ContainerAt(emptied, p) == if Site(p) == Slot(slot, k) then None else ContainerAt(sc, p)
  {
    BagWritten(sc.agents, k, BagOf(sc.agents, k) - {slot});
  }

  lemma SourceIsUnique(sc: Scene, p: ItemPlacement)
    requires Unique(SceneTally(sc))
    ensures SiteIsUnique(sc, p)
  {
    if Site(p).Tile? && Site(p).pos in sc.tiles { TileIsUnique(sc, Site(p).pos); }
  }

  lemma DislodgingKeepsTheSource(sc: Scene, k: AgentKey, slot: InventorySlot, p: ItemPlacement, feet: Position)
    requires IsPlayerOf(sc.agents, k) && feet in sc.tiles && Unique(SceneTally(sc))
    requires SaneSource(sc, p) && (p.InContainer? ==> ContainerAt(sc, p).Some?)
    ensures DislodgeOk(sc, k, slot, p)
    ensures SaneSource(Dislodged(sc, k, slot, p, feet), p)
    ensures p.OnMap? && p.pos in sc.tiles ==>
              |sc.tiles[p.pos].items| <= |Dislodged(sc, k, slot, p, feet).tiles[p.pos].items|
  {
    var slots := BagOf(sc.agents, k);
    if p.InContainer? && slot in slots {
      var emptied := WithSlots(sc, k, slots - {slot});
      SourceIsUnique(sc, p);
      EmptyingKeepsTheSource(sc, k, slot, p);
      TakesIff(emptied, p, slots[slot]);
      if Takes(emptied, p, slots[slot]) {
        ContainerAfterInserting(emptied, p, None, slots[slot]);
      } else {
        ContainerUnderTheTop(emptied, p, feet, slots[slot]);
      }
    }
  }

  // A move that is refused is refused by a target other than a bare tile, and then the item
  // was found where its placement says.
  lemma BegunIsFound(sc: Scene, feet: Position, p: ItemPlacement, g: Guid, amount: U8, to: ItemPlacement,
                     newName: Guid)
    requires Unique(SceneTally(sc)) && CanTake(sc, p, g, amount, newName)
    requires MayBegin(sc, feet, p, g, amount, to)
    ensures to.OnMap? ==> to.pos in sc.tiles
    ensures !to.OnMap? ==> NamedAt(sc, p, g).Some? && (p.InContainer? ==> LiesIn(sc, p, g))
    ensures to.InInventory? ==> FitsSlot(TakenOf(sc, p, g, amount, newName).removed, to.slot)
  {
    if !to.OnMap? {
      NamedIsAtSite(sc, p, g);
      TakenIsFound(sc, p, g, amount, newName);
    }
  }

  lemma RefusedIsReturnable(sc: Scene, k: AgentKey, to: ItemPlacement, item: Item, p: ItemPlacement,
                            index: Option<nat>, feet: Position)
    requires IsPlayerOf(sc.agents, k) && feet in sc.tiles && Unique(SceneTally(sc))
    requires to.OnMap? ==> to.pos in sc.tiles
    requires to.InInventory? ==> FitsSlot(item, to.slot) && to.agent == k
    requires !to.OnMap? ==> SaneSource(sc, p) && (p.InContainer? ==> ContainerAt(sc, p).Some?)
    requires (Site(p).Slot? ==> Site(p).agent == k) && IndexOk(sc, p, index) && (p.OnMap? ==> p.pos in sc.tiles)
    ensures ReturnOk(sc, k, to, item, p, index, feet)
  {
    if to.InInventory? {
      var d := Dislodged(sc, k, to.slot, p, feet);
      DislodgingKeepsTheSource(sc, k, to.slot, p, feet);
      DislodgedKeeps(sc, k, to.slot, p, feet);
      BagIsUnique(d, k);
      HandsCanBeFreedIff(BagOf(d.agents, k), to.slot, item);
      SameBag(d.agents, k);
      BagWritten(d.agents, k, HandsFreed(BagOf(d.agents, k), to.slot, item).1);
      if p.InContainer? {
        SourceIsUnique(d, p);
        TakesIff(d, p, item);
      }
    } else if p.InContainer? && !to.OnMap? {
      SourceIsUnique(sc, p);
      TakesIff(sc, p, item);
    }
  }

  // What the source takes for granted of its caller: the target slot and the source are the
  // mover's own, what is worn belongs in a slot, and containers have a capacity and are
  // addressed within their contents.
  ghost predicate WellAddressed(sc: Scene, k: AgentKey, source: ItemPlacement, guid: Guid, amount: U8,
                                to: ItemPlacement, newName: Guid) {
    && (Site(to).Slot? ==> Site(to).agent == k) && (Site(source).Slot? ==> Site(source).agent == k)
    && (IsPlayerOf(sc.agents, k) ==> WearsSlotted(BagOf(sc.agents, k)))
    && SaneSource(sc, source)
    && (CanTake(sc, source, guid, amount, newName) ==>
          InsertOk(Removed(sc, source, guid, amount, newName), to, TakenOf(sc, source, guid, amount, newName).removed))
  }

  ghost predicate Named(sc: Scene, newName: Guid) { Unique(SceneTally(sc)) && Name(newName) !in SceneTally(sc) }

  // Taken out, and then wherever it settles.
  ghost function AfterMove(sc: Scene, k: AgentKey, source: ItemPlacement, guid: Guid, amount: U8, to: ItemPlacement,
                           newName: Guid, feet: Position): (bool, Scene)
    requires IsPlayerOf(sc.agents, k) && WearsSlotted(BagOf(sc.agents, k)) && feet in sc.tiles && Named(sc, newName)
    requires CanTake(sc, source, guid, amount, newName)
  {
    RemovedKeeps(sc, k, source, guid, amount, newName);
    RemovedIsUnique(sc, source, guid, amount, newName);
    Settled(Removed(sc, source, guid, amount, newName), k, to, TakenOf(sc, source, guid, amount, newName).removed,
            source, PlaceTaken(sc, source, guid, amount, newName), feet)
  }

  lemma MoveIsOk(sc: Scene, k: AgentKey, source: ItemPlacement, guid: Guid, amount: U8,
                 to: ItemPlacement, newName: Guid, feet: Position)
    requires IsPlayerOf(sc.agents, k) && feet in sc.tiles && Named(sc, newName)
    requires WellAddressed(sc, k, source, guid, amount, to, newName)
    requires CanTake(sc, source, guid, amount, newName)
    requires MayBegin(sc, feet, source, guid, amount, to)
    ensures var (sc1, x) := (Removed(sc, source, guid, amount, newName),
                             TakenOf(sc, source, guid, amount, newName).removed);
            && IsPlayerOf(sc1.agents, k) && feet in sc1.tiles && Unique(SceneTally(sc1))
            && PlaceOk(sc1, k, to, x, source)
            && ReturnOk(sc1, k, to, x, source, PlaceTaken(sc, source, guid, amount, newName), feet)
  {
    var sc1 := Removed(sc, source, guid, amount, newName);
    RemovedKeeps(sc, k, source, guid, amount, newName);
    RemovedIsUnique(sc, source, guid, amount, newName);
    BegunIsFound(sc, feet, source, guid, amount, to, newName);
    if !to.OnMap? {
      TakingKeepsTheSource(sc, source, guid, amount, newName);
      if to.InInventory? { DislodgingKeepsTheSource(sc1, k, to.slot, source, feet); }
    }
    RefusedIsReturnable(sc1, k, to, TakenOf(sc, source, guid, amount, newName).removed, source,
                        PlaceTaken(sc, source, guid, amount, newName), feet);
  }

  method Deny(ctx: TickCtx, k: AgentKey)
    modifies ctx`events
    ensures ctx.events == old(ctx.events) + [MoveItemDenied(k)]
  {
    ctx.events := ctx.events + [MoveItemDenied(k)];
  }

  method Carry(ctx: TickCtx, k: AgentKey, source: ItemPlacement, guid: Guid, amount: U8, to: ItemPlacement,
               newName: Guid)
    returns (outcome: Outcome)
    requires ctx.Valid() && ctx.IsPlayer(k) && k in ctx.world.places && Named(ctx.Now(), newName)
    requires WellAddressed(ctx.Now(), k, source, guid, amount, to, newName)
    requires MayBegin(ctx.Now(), ctx.world.places[k], source, guid, amount, to)
    modifies ctx`events, ctx.world`chunks, ctx.world`tiles, ctx.world`agents
    ensures ctx.Valid()
    ensures !outcome.Ignored? && ctx.world.places[k] in old(ctx.world.tiles)
    ensures outcome.Denied? <==> !CanTake(old(ctx.Now()), source, guid, amount, newName)
    ensures outcome.Denied? ==> ctx.Now() == old(ctx.Now())
    ensures !outcome.Denied? ==>
              (outcome.Moved?, ctx.Now())
              == AfterMove(old(ctx.Now()), k, source, guid, amount, to, newName, ctx.world.places[k])
  {
    ghost var before := ctx.Now();
    assert ctx.world.places[k] in before.tiles;
    var removed := RemoveItemAt(ctx, source, guid, amount, newName);
    if removed.None? {
      Deny(ctx, k);
      return Denied;
    }
    var (item, index) := removed.value;
    MoveIsOk(before, k, source, guid, amount, to, newName, ctx.world.places[k]);
    var ok := Settle(ctx, k, to, item, source, index);
    if ok { return Moved; }
    Deny(ctx, k);
    return Refused;
  }

  method MoveItem(ctx: TickCtx, k: AgentKey, source: ItemPlacement, guid: Guid, amount: U8, to: ItemPlacement,
                  newName: Guid)
    returns (outcome: Outcome)
    requires ctx.Valid() && Named(ctx.Now(), newName)
    requires WellAddressed(ctx.Now(), k, source, guid, amount, to, newName)
    modifies ctx`events, ctx.world`chunks, ctx.world`tiles, ctx.world`agents
    ensures ctx.Valid()
    ensures outcome.Ignored? <==> !old(ctx.IsPlayer(k))
    ensures old(ctx.IsPlayer(k)) ==> k in ctx.world.places && ctx.world.places[k] in old(ctx.world.tiles)
    ensures outcome.Moved? || outcome.Refused? <==>
              && old(ctx.IsPlayer(k))
              && MayBegin(old(ctx.Now()), ctx.world.places[k], source, guid, amount, to)
              && CanTake(old(ctx.Now()), source, guid, amount, newName)
    ensures outcome.Ignored? || outcome.Denied? ==> ctx.Now() == old(ctx.Now())
    ensures outcome.Moved? || outcome.Refused? ==>
              (outcome.Moved?, ctx.Now())
              == AfterMove(old(ctx.Now()), k, source, guid, amount, to, newName, ctx.world.places[k])
  {
    if !ctx.IsPlayer(k) { return Ignored; }
    assert k in ctx.world.places && ctx.world.places[k] in ctx.world.tiles;
    var allowed := IsAllowed(ctx, k, source, guid, amount, to);
    if allowed {
      outcome := Carry(ctx, k, source, guid, amount, to, newName);
    } else {
      Deny(ctx, k);
      outcome := Denied;
    }
  }
}
