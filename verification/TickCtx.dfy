/**
 What a rule of the game may write to during a tick: the world, the messages to send and
 the commands to schedule. The steps here put items on tiles and into inventories and take
 them out again.
 */
module Ticks {
  import opened Wrappers
  import opened Positions
  import opened Items
  import opened Inventories
  import opened GameMaps
  import opened Scenes
  import opened Events
  import World

  class TickCtx {
    const world: GameMap
    const tick: nat
    var events: seq<BroadcastMessage>
    var scheduled: seq<World.ScheduledCommand>

    constructor (world: GameMap, tick: nat)
      ensures this.world == world && this.tick == tick && events == [] && scheduled == []
    {
      this.world := world;
      this.tick := tick;
      events, scheduled := [], [];
    }

    ghost predicate Valid()
      reads world
    {
      world.Valid() && world.Indexed()
    }

    ghost function Now(): Scene
      reads world`agents, world`tiles
    {
      Scene(world.tiles, world.agents)
    }

    predicate IsPlayer(k: AgentKey)
      reads world`agents
    {
      IsPlayerOf(world.agents, k)
    }

    function SlotsOf(k: AgentKey): Slots
      requires IsPlayer(k)
      reads world`agents
    {
      BagOf(world.agents, k)
    }

    // ------------------------------------------------------------ tiles

    // Directly onto the tile.
    method Drop(pos: Position, index: Option<nat>, item: Item) returns (r: Result<(), MovementError>)
      requires Valid()
      requires pos in world.tiles && index.Some? ==> index.value <= |world.tiles[pos].items|
      modifies this`events, world`chunks, world`tiles
      ensures Valid()
      ensures r.Ok? <==> pos in old(world.tiles)
      ensures r.Err? ==> world.tiles == old(world.tiles) && events == old(events)
      ensures r.Ok? ==> world.tiles == WithOneMore(old(world.tiles), pos, index, item)
    {
      var placed := world.PlaceOnTile(pos, index, item);
      if placed.Err? { return Err(MovementError.TileDoesNotExist); }
      events := events + [TileChanged(pos)];
      return Ok(());
    }

    // Into a container on the tile.
    method Pack(pos: Position, g: Guid, at: nat, item: Item) returns (r: Result<(), MovementError>)
      requires Valid()
      requires pos in world.tiles ==> AllFit(world.tiles[pos].items, g, at)
      modifies this`events, world`chunks, world`tiles
      ensures Valid()
      ensures r.Err? ==> world.tiles == old(world.tiles) && events == old(events)
      ensures r.Ok? <==> pos in old(world.tiles) && PutIn(old(world.tiles)[pos].items, g, at, item).Ok?
      ensures r.Ok? ==>
                world.tiles == WithItems(old(world.tiles), pos, PutIn(old(world.tiles)[pos].items, g, at, item).value)
    {
      var placed := world.PlaceInContainer(pos, g, at, item);
      if placed.Err? {
        return Err(match placed.error
                   case ContainerIsFull => MovementError.ContainerIsFull
                   case EntityNotInPosition => ItemNotInPosition
                   case TileDoesNotExist => MovementError.TileDoesNotExist);
      }
      events := events + [ContainerUpdated(g, OnMap(pos))];
      return Ok(());
    }

    // ------------------------------------------------------------ bags

    // Writing back a player's inventory.
    method StoreBag(k: AgentKey, inventory: Carried)
      requires Valid() && IsPlayer(k)
      modifies world`agents
      ensures Valid() && world.agents == WithBag(old(world.agents), k, inventory.slots)
    {
      world.SetAgent(k, WithInventory(world.agents[k], inventory));
    }

    // Into a slot, over whatever is there: callers empty the slot first, because what was
    // there is gone.
    method Equip(k: AgentKey, slot: InventorySlot, item: Item)
      requires Valid() && IsPlayer(k)
      modifies world`agents
      ensures Valid() && world.agents == WithBag(old(world.agents), k, old(SlotsOf(k))[slot := item])
    {
      var inventory := new Inventory.Copy(world.agents[k].inner.inventory);
      var displaced := inventory.InsertInSlot(slot, item);
      StoreBag(k, inventory.AtRest());
    }

    method Stash(k: AgentKey, slot: InventorySlot, g: Guid, at: nat, item: Item)
      returns (r: Result<(), MovementError>)
      requires Valid() && IsPlayer(k) && (slot in SlotsOf(k) ==> Fits(SlotsOf(k)[slot], g, at))
      modifies this`events, world`agents
      ensures Valid()
      ensures r == PutOutcome(old(SlotsOf(k)), slot, g)
      ensures r.Err? ==> world.agents == old(world.agents) && events == old(events)
      ensures r.Ok? ==> world.agents == WithBag(old(world.agents), k, Packed(old(SlotsOf(k)), slot, g, at, item))
    {
      var inventory;
      r, inventory := PackInto(world.agents[k].inner.inventory, slot, g, at, item);
      if r.Err? { return; }
      StoreBag(k, inventory);
      events := events + [ContainerUpdated(g, InInventory(slot, k))];
    }

    method Draw(k: AgentKey, slot: InventorySlot, g: Guid, amount: U8, newName: Guid)
      returns (r: Option<(Item, Option<(Guid, nat)>)>)
      requires Valid() && IsPlayer(k)
      modifies world`agents
      ensures Valid()
      ensures r.Some? <==> CanDraw(old(SlotsOf(k)), slot, g, amount, newName)
      ensures r.None? ==> world.agents == old(world.agents)
      ensures r.Some? ==>
                && world.agents == WithBag(old(world.agents), k, Drawn(old(SlotsOf(k)), slot, g, amount, newName))
                && r.value.0 == TakeFrom([old(SlotsOf(k))[slot]], g, amount, newName).value.removed
    {
      var inventory := new Inventory.Copy(world.agents[k].inner.inventory);
      r := inventory.Remove(slot, g, amount, newName);
      if r.Some? { StoreBag(k, inventory.AtRest()); }
    }

    method Unequip(k: AgentKey, slot: InventorySlot) returns (item: Option<Item>)
      requires Valid() && IsPlayer(k)
      modifies world`agents
      ensures Valid() && world.agents == WithBag(old(world.agents), k, old(SlotsOf(k)) - {slot})
      ensures item == Displaced(old(SlotsOf(k)), slot)
    {
      var inventory := new Inventory.Copy(world.agents[k].inner.inventory);
      item := inventory.TakeSlot(slot);
      StoreBag(k, inventory.AtRest());
    }
  }

  // On a copy, so that a refusal leaves the inventory as it was.
  method PackInto(c: Carried, slot: InventorySlot, g: Guid, at: nat, item: Item)
    returns (r: Result<(), MovementError>, c': Carried)
    requires slot in c.slots ==> Fits(c.slots[slot], g, at)
    ensures r == PutOutcome(c.slots, slot, g)
    ensures r.Ok? ==> c'.slots == Packed(c.slots, slot, g, at, item)
  {
    var inventory := new Inventory.Copy(c);
    r := inventory.InsertInContainer(slot, g, at, item);
    c' := inventory.AtRest();
  }
}
