# Verification of the game rules of rustibia_server

This project models the rules of a tick-driven game server and proves properties of them:
who owns which item, where agents stand, what a tick runs, who may still be attacked after a
round of combat, how levels are gained, what a client sees, and how bytes become maps and
messages. `dafny verify dfyconfig.toml` checks all of it.

## How it is laid out

| file | what it models |
|---|---|
| `Wrappers`, `Words`, `Position` | options, results, machine widths, little-endian words; positions, directions, placements |
| `LocalId` | the session-local id allocator |
| `Items`, `Inventory` | item trees and their accounting; what a player carries, with its cached weight and statistics |
| `Chunks`, `GameMap` | the chunked tile store; tiles, agents and positions |
| `Ledger`, `Scene`, `TickCtx` | the tally of everything the world holds; putting items in and taking them out, on values and on the world |
| `ItemMovement`, `MoveItem`, `ReturnItem` | removing, inserting, stowing, making room; a player's move with its undo; putting an item back |
| `MoveLaws`, `MoveExamples`, `ReturnLaws` | what a move conserves and restores, from every source to every target; moves that lose something; what a return comes to |
| `CarriedSearch` | searching an inventory and resolving placements |
| `Participation`, `Skills`, `Loot`, `Blood` | damage shares, levelling, what a corpse holds, pools on the ground |
| `Battle`, `Combat` | targets, damage, death and the combat pass as functions, with their laws; the steps on the world that refine them |
| `World`, `Events` | the scheduler and its tick loop; what a tick reports, and the pass that drops superseded refreshes |
| `Pathfinding`, `LineOfSight`, `Viewport` | the search heuristic, the line walk and sight, incremental viewports |
| `Otbm`, `Codec` | the map file's node grammar; the client protocol's frames |

State that the server updates in place is a class here: the allocator, inventories, the
map, the tick context, the command queue and the world actor, the map parser and the frame
decoder. Each of their methods says exactly what the new state is, as a function of the old
one, and the laws are proved about those functions.

Items are accounted for with one multiset per tree, its tally: as many `Units(id)` as there
are of an item id, one `Name(guid)` per item, and the total `Weight`. Conservation, unique
names and correct weights are then one equation. `Scenes.SceneTally` is the tally of all
tiles and all inventories.

Chance, clocks and tables are parameters: the name a split stack gets, the attack an agent
decides on, the empty corpse of a creature and the rolls for its loot, which byte strings are
valid text, the ticks a walk takes, the handlers of the world's commands.

## What the code does that its comments do not say

- A refused move is said to restore the item to its exact source position. From a tile it does
  so exactly when the item lay on the tile and was moved whole and, where it was to be worn,
  the slot was free and no hand could be emptied on the way (`MoveLaws.RefusalIsExactIff`); a
  helmet that is too heavy undresses the player (`MoveExamples.AHelmetTooHeavyUndresses`).
- Out of a slot or a container a move can lose items. `MoveLaws.MoveConservesIff` gives the exact
  condition for every source and target; where the target is not a slot already taken, a refused
  move loses nothing exactly when the slot's whole item was taken, or the container has room
  for what comes back, and the player is not over capacity
  (`MoveLaws.RefusedMoveConservesIff`). Three of ten throwing stars moved into a full backpack
  lose the other seven (`MoveExamples.SevenStarsAreLost`).
- Swaps between slots are said to be rejected before a move begins; nothing rejects them
  (crates/server/src/actors/session/items.rs:22-71). Such a swap conserves exactly when the
  source slot was emptied and the item can then be worn (`MoveLaws.SwapOfSlotsConservesIff`),
  and part of a stack moved onto its own slot loses the rest
  (`MoveLaws.PartOntoItsOwnSlotLosesTheRest`).
- An item that may not be moved is looked for where its placement says, but taken from anywhere
  on the tile: it stays unless it is in a container, asked for at an index that is not its own,
  and moved onto a tile (`MoveLaws.FixturesStay`, `MoveExamples.AFixtureByAnotherIndex`).
- The step into level 2 costs as much as the step into level 3, so the guard against flat
  curves stops every climb at level 2 (`Skills.CeilingsOfTheLevelCurve`,
  `Skills.LevelTwoIsACeiling`).
- The shortcut in the sight test compares signed differences, so sight ignores walls
  towards the west and north and is not symmetric (`LineOfSight.SightIsSymmetricIff`,
  `LineOfSight.SightMeetsTheLineIff`).
- `move_agent` takes the agent off its tile before it looks at the destination: the agent
  index survives exactly when the destination exists (`GameMaps.GameMap.MoveAgent`).
- The strips a step uncovers repeat known tiles exactly when the window is clamped on the side
  walked towards (`Viewport.ExpansionIsTheDifferenceIff`), and the tile refresh of a walk asks for
  the strips of the position walked from, which name no new tile
  (`Viewport.ExpansionOfTheOldPositionIsOldNews`).
- A corpse without a capacity attribute, such as a dead troll, says it is full after its first
  stack, and the rest of its loot is dropped (`Loot.NothingIsDroppedIff`).

## Model

| member | source | states |
|---|---|---|
| `LocalId.ComposeRoundTrip` | crates/server/src/local_id.rs:127-133 | Packing an index the allocator hands out with a generation loses nothing, and never gives the reserved ids 0 and 0xFFFF. |
| `LocalId.SomeSlotIsFree` | crates/server/src/local_id.rs:67-89 | Below capacity a free slot exists (pigeonhole), which is why the claiming loop ends. |
| `LocalId.LocalIdMap.ClaimIndex` | crates/server/src/local_id.rs:67-89 | Ends with the first free index in cyclic order from the cursor, in 1..=4094; the cursor stands just past it, nothing else changes. |
| `LocalId.LocalIdMap.GetOrInsert` | crates/server/src/local_id.rs:54-65 | A known global keeps its id and nothing changes; a new one takes the first free slot; the id resolves to it and is neither 0 nor 0xFFFF; the two maps stay inverse. |
| `LocalId.LocalIdMap.RemoveByLocal` | crates/server/src/local_id.rs:91-106 | Frees exactly the slot whose current id is given; a stale or unknown id changes nothing. |
| `LocalId.LocalIdMap.GetGlobal` | crates/server/src/local_id.rs:112-120 | Resolves an id exactly while its slot is at the generation it was issued in. |
| `LocalId.LocalIdMap.GetLocal` | crates/server/src/local_id.rs:108-110 | The one id that resolves to the global, if any: the maps are mutual inverses. |
| `LocalId.WireAgreesIff` | crates/server/src/local_id.rs:91-133 | The 4-bit generation agrees with an unbounded count exactly until the count comes round to an occupied slot again. |
| `LocalId.RunKeeps` | crates/server/src/local_id.rs:54-106 | Over every run of requests and frees the allocator stays well formed, free counts never drop, and an occupant stays until its slot is freed. |
| `LocalId.StaleIdsNeverResolve` | crates/server/src/local_id.rs:91-120 | Over every run: between the first and the fifteenth free of its slot an id resolves to nothing, freeing by it changes nothing, and no id minted for the slot equals it. |
| `Items.WeightIsTallied` | crates/server/src/entities/items.rs:314-321 | The recursive weight is the weight in the tally. |
| `Items.WeighsItsUnits` | crates/server/src/entities/items.rs:314-321 | It is the sum, over all items of the tree, of units times the weight of their kind, where that has one. |
| `Items.FoundIffNamed` | crates/server/src/entities/items.rs:323-331 | A search by guid succeeds exactly when the name occurs in the tree, and finds a subtree of that name. |
| `Items.SplitBalances` | crates/server/src/entities/items.rs:345-355 | A stack and the piece split off it hold together what the stack held, and one new name. |
| `Items.TakeBalances` | crates/server/src/entities/items.rs:360-381 | Taking from any depth: what is left and what was taken hold together what was there, plus the new name if a stack was split. |
| `Items.TakesWhatIsFound` | crates/server/src/entities/items.rs:360-381 | With unique names the item taken, whole or in part, is the one a search finds; the taking fails exactly when there is none or too little. |
| `Items.TakenFromWhere` | crates/server/src/entities/map.rs:403-431 | Taken directly, an item is gone from the list or left smaller, and its index is reported; taken from deeper, the list keeps its length and the parent is reported. |
| `Items.TakeWeighs` | crates/server/src/entities/items.rs:360-381 | The weight of what is left and what was taken is the weight there was, so no cached total underflows. |
| `Items.PutBalances` | crates/server/src/entities/map.rs:433-464 | A successful insertion into a container adds exactly the item. |
| `Items.PutsWhereAsked` | crates/server/src/entities/map.rs:433-464 | With unique names an insertion lands in the container named, at the index; it is refused exactly when there is no such container or it is full. |
| `Items.AvailableHasRoom` | crates/server/src/entities/inventory.rs:218-229 | The container the search for room names exists, has a capacity and has room. |
| `Items.AvailableIsTheFirst` | crates/server/src/entities/inventory.rs:218-229 | Room is found whenever a container has some, and the first that does, each before those inside it; nothing is looked for inside an item without a capacity. |
| `Items.TopUpBalances` | crates/server/src/game/item_movement.rs:416-421 | Topping up moves units and weight from the item to the stack; both keep their names. |
| `Items.MergeBalances` | crates/server/src/game/item_movement.rs:357-414 | Merging into a list or a nested container changes nothing but the two amounts, and their sum not at all. |
| `Inventories.CarriedIsTallied` | crates/server/src/entities/inventory.rs:48-57 | The weight summed over all slots from scratch is the weight of what is held. |
| `Inventories.SlotChange` | crates/server/src/entities/inventory.rs:78-156 | The tallies of two inventories that differ in one slot differ by that slot. |
| `Inventories.Inventory.FromSnapshot` | crates/server/src/entities/inventory.rs:48-57 | Starts with a weight and statistics that are those of its slots. |
| `Inventories.Inventory.InsertInSlot` | crates/server/src/entities/inventory.rs:84-94 | The slot holds the item, the occupant is handed back, the cached weight stays the recursive sum and no subtraction underflows. |
| `Inventories.Inventory.InsertInContainer` | crates/server/src/entities/inventory.rs:95-115 | Succeeds exactly when the container is there, has contents and is not full; a refusal changes nothing, a success adds the item and its weight. |
| `Inventories.Inventory.Remove` | crates/server/src/entities/inventory.rs:123-147 | Whole, split or nested: removes exactly what a taking from the slot's tree removes, and the cached weight stays the recursive sum. |
| `Inventories.Inventory.TakeSlot` | crates/server/src/entities/inventory.rs:151-156 | Empties the slot, hands back what was in it, and the cached weight drops by all of it. |
| `Inventories.Inventory.FirstAvailableContainer` | crates/server/src/entities/inventory.rs:118-121 | The backpack's first container with room, if there is a backpack with one. |
| `Inventories.Inventory.MergeStack` | crates/server/src/game/item_movement.rs:377-402 | Merging in a slot's tree adds the weight of exactly the units moved; nothing changes when none move. |
| `Inventories.MergedAtSlot` | crates/server/src/game/item_movement.rs:377-402 | The slots hold afterwards what they and the item held, less what is left of the item; weight and statistics agree. |
| `Inventories.WearingAddsUp` | crates/server/src/entities/inventory.rs:174-210 | Each worn item adds its armor and its speed, and nothing worn gives none. |
| `Inventories.DefenseComesFromTheHands` | crates/server/src/entities/inventory.rs:188-202 | Defense is the shield's, or with no shield the weapon's, with the weapon's bonus either way; never negative, and none with empty hands. |
| `Chunks.PlaceIsInjective` | crates/server/src/entities/map.rs:42-58 | A chunk coordinate and a local index are one position, both ways. |
| `Chunks.TileStored` | crates/server/src/entities/map.rs:137-145 | Storing a tile through the index changes that position and no other. |
| `Chunks.TilesInRectVisitsEachOnce` | crates/server/src/entities/map.rs:249-294 | The walk over a rectangle visits each of its positions exactly once and no other, with the tile a lookup gives. |
| `Chunks.AgentsInRectAreTheSeated` | crates/server/src/entities/map.rs:275-285 | The agents listed for a rectangle are those its tiles list, as often as they do. |
| `GameMaps.GameMap.InsertTile` | crates/server/src/entities/map.rs:137-145 | The chunk index stays the flat map, with this tile changed. |
| `GameMaps.GameMap.InsertAgent` | crates/server/src/entities/map.rs:182-190 | A new key, recorded and listed at the position, exactly when there is a tile; the three indices stay coherent. |
| `GameMaps.GameMap.RemoveAgent` | crates/server/src/entities/map.rs:192-201 | Hands back agent and position, unlists it, and the indices stay coherent. |
| `GameMaps.GameMap.MoveAgent` | crates/server/src/entities/map.rs:203-217 | Moves the listing and the record; the indices stay coherent if and only if the destination exists (or the agent does not). |
| `GameMaps.GameMap.AgentsInRectAreThoseStandingThere` | crates/server/src/entities/map.rs:275-285 | In every coherent state the agents of a rectangle are those whose recorded position lies in it, once each. |
| `GameMaps.UnseatAloneIsIncoherent` | crates/server/src/entities/map.rs:203-217 | An agent unlisted but still recorded breaks the index: what a failed move leaves. |
| `GameMaps.GameMap.RemoveItemFromTile` | crates/server/src/entities/map.rs:403-431 | Takes what a taking from the tile's list takes, with the index or the parent; the index stays coherent. |
| `GameMaps.GameMap.PlaceOnTile` | crates/server/src/entities/map.rs:433-464 | Splices the item in at the index, or on top; fails exactly when there is no tile. |
| `GameMaps.GameMap.PlaceInContainer` | crates/server/src/entities/map.rs:433-464 | Puts the item into the named container or leaves everything as it is, with the reason. |
| `Ledgers.SumSplits` | crates/server/src/entities/map.rs:105-109 | The world's tally does not depend on the order in which tiles and inventories are counted. |
| `Ledgers.TileChange` | crates/server/src/entities/map.rs:403-464 | What one tile gains or loses, the world does. |
| `Ledgers.BagChange` | crates/server/src/entities/inventory.rs:78-156 | What one inventory gains or loses, the world does. |
| `Scenes.InsertingBalances` | crates/server/src/game/item_movement.rs:423-511 | An insertion anywhere adds exactly the item to the world, less what it was written over. |
| `Scenes.InsertingRests` | crates/server/src/game/item_movement.rs:423-511 | With unique names, an inserted item is where its placement says. |
| `Scenes.TakingBalances` | crates/server/src/game/item_movement.rs:513-563 | A taking, whole, split or nested: what is left and what was taken hold together what the world held, plus the new name of a split stack. |
| `Scenes.TakesIff` | crates/server/src/game/item_movement.rs:423-511 | An insertion into a container is carried out exactly when that container is there with room and, in an inventory, its player can carry the item; it never panics for an index within the contents. |
| `Scenes.ContainerAfterInserting` | crates/server/src/game/item_movement.rs:423-511 | Afterwards the container the placement names holds the item at the index, and what it held before around it. |
| `Scenes.ContainerAfterTaking` | crates/server/src/game/item_movement.rs:513-563 | Taking what lies in a container leaves that container in place, without the item or with the split stack. |
| `ItemMovement.InsertItemAt` | crates/server/src/game/item_movement.rs:423-511 | Succeeds exactly when the tile exists, the container takes it and the player can carry it; the new world is exactly the old one with the item inserted, a refusal changes nothing. |
| `ItemMovement.RemoveFromTile` | crates/server/src/game/item_movement.rs:513-538 | The tile holds exactly what the taking leaves; nothing changes when nothing can be taken. |
| `ItemMovement.RemoveFromSlot` | crates/server/src/game/item_movement.rs:539-563 | The slot's tree holds exactly what the taking leaves, with its weight accounted for; nothing changes when nothing can be taken. |
| `ItemMovement.RemoveItemAt` | crates/server/src/game/item_movement.rs:513-563 | From any placement: takes exactly what is there, with the index it had straight on a tile; nothing happens exactly when there is none or too little. |
| `ItemMovement.StowItem` | crates/server/src/game/item_movement.rs:277-297 | Goes to the front of the backpack's first container with room; refused, without effect, when there is none. |
| `ItemMovement.StowedBalances` | crates/server/src/game/item_movement.rs:277-297 | Stowing adds exactly the item, and changes no slot but the backpack. |
| `ItemMovement.StowHand` | crates/server/src/game/item_movement.rs:92-133 | The hand is emptied into the backpack, or is as it was when there is no room. |
| `ItemMovement.HandsCanBeFreedIff` | crates/server/src/game/item_movement.rs:85-135 | The hands can be freed exactly when none is in the way or the backpack has room; when they cannot, the slots stay as they are. |
| `ItemMovement.HandsFreedKeepsTheRest` | crates/server/src/game/item_movement.rs:85-135 | Freeing the hands loses nothing, and no two-handed weapon ever ends up beside anything but the quiver to its bow: neither after the equip nor when freeing fails half-way. |
| `ItemMovement.DislodgedKeeps` | crates/server/src/game/item_movement.rs:36-83 | What is taken off goes to the source of the move, or to the feet when the source will not have it: the world loses exactly what it was laid over at the source. |
| `ItemMovement.MakeRoom` | crates/server/src/game/item_movement.rs:36-137 | For every source: the slot's occupant is laid at the source or at the player's feet, and the hands that may not stay full are stowed; new slots and tiles are stated exactly, on success and on refusal. |
| `MoveLaws.RoomMadeBalances` | crates/server/src/game/item_movement.rs:36-137 | Making room, done or refused, loses nothing but what the occupant was laid over, and names stay unique. |
| `Moves.Settle` | crates/server/src/game/item_movement.rs:247-274 | The item taken ends at its target, or, exactly when the target refuses, back where it came from if that takes it; never does a step panic. |
| `Moves.MoveItem` | crates/server/src/game/item_movement.rs:139-274 | From every source to every target: ignored without a player; denied without effect exactly when a check fails or there is too little of the item; otherwise moved or refused, with the new world stated exactly for both. The checks are stated on coordinates and flags (`Moves.MayBegin`). |
| `Moves.AllowedIff` | crates/server/src/game/item_movement.rs:154-228 | What is checked through the chunk index and the placement search is exactly this: a tile source one step away on the same floor; no fixture, and enough units; onto a tile in view with ground and nothing filling it, over tiles all the way down and in sight; into the slot it belongs in; into a container if it can be carried. |
| `Moves.TakenIsFound` | crates/server/src/game/item_movement.rs:139-246 | With unique names, the item a move takes is the one its checks looked at, whole or a piece of it. |
| `Moves.MoveIsOk` | crates/server/src/game/item_movement.rs:139-274 | After a taking, whatever is allowed can be placed or put back without a panic: the container it came from is still there and addressed within its contents. |
| `MoveLaws.MoveBalances` | crates/server/src/game/item_movement.rs:139-274 | From every source to every target, done or refused: every unit, name and weight of the world is accounted for but what is written over; names stay unique; a moved item rests at its target. |
| `MoveLaws.MoveConservesIff` | crates/server/src/game/item_movement.rs:139-274 | A move loses nothing if and only if nothing is written over when what was worn changes places with the item and, where the target refuses, the source takes the item back. |
| `MoveLaws.MovesFromTilesConserve` | crates/server/src/game/item_movement.rs:139-274 | From a tile, to whatever target and whatever becomes of it, a move conserves everything the world holds. |
| `MoveLaws.RefusedMoveConservesIff` | crates/server/src/game/item_movement.rs:257-274 | To a tile, a container or a free slot: a refused move loses nothing if and only if its source was a tile, a slot whose whole item was taken, or a container that has room for what comes back; and, if carried, its player is not over capacity. |
| `MoveLaws.SwapOfSlotsConservesIff` | crates/server/src/game/item_movement.rs:47-71 | A move between two slots that are both taken loses nothing if and only if the source slot was emptied and, with the two items exchanged, the hands allow the equip or the backpack has room. |
| `MoveLaws.PartOntoItsOwnSlotLosesTheRest` | crates/server/src/game/item_movement.rs:47-71 | Moving part of a stack onto the slot it is in loses items, though the move goes through. |
| `MoveLaws.FixturesStay` | crates/server/src/game/item_movement.rs:164-176 | A fixture is only ever moved out of a container, by an index that is not its own, and onto a tile. |
| `MoveExamples.AFixtureByAnotherIndex` | crates/server/src/game/item_movement.rs:164-237 | A fixture alone in a container at the feet, asked for at the index after it, is moved. |
| `MoveExamples.StarsIntoAFullBackpack` | crates/server/src/game/item_movement.rs:257-274 | Throwing stars moved from the hand into a full backpack: the move is refused, and loses nothing if and only if all ten were moved by a player within capacity. |
| `MoveExamples.SevenStarsAreLost` | crates/server/src/game/item_movement.rs:257-274 | In a world spelt out in full, where names are unique and weights add up, three of ten are moved into a full backpack and the rest are lost. |
| `MoveExamples.AnAxeOutOfAFullBackpack` | crates/server/src/game/item_movement.rs:47-71 | Equipping a two-handed axe out of a full backpack: the sword takes its place there, the shield finds none, and the refused axe is lost. |
| `MoveLaws.MoveKeepsHandsLegal` | crates/server/src/game/item_movement.rs:85-135 | From a tile or a container, done or refused: no move puts a two-handed weapon beside another item, except a bow beside a quiver. |
| `MoveLaws.RefusalIsExactIff` | crates/server/src/game/item_movement.rs:257-274 | A move from a tile that is refused leaves everything as it was if and only if the item lay on the tile and was moved whole and, where it was to be worn, its slot was free and no hand was in the way or the backpack had no room. |
| `MoveExamples.AHelmetTooHeavyUndresses` | crates/server/src/game/item_movement.rs:257-274 | A player who wears a helmet and cannot carry the one on the ground: equipping that one is refused, and does not leave everything as it was, though nothing is lost. |
| `MoveLaws.PutBackIsExactIff` | crates/server/src/game/item_movement.rs:258-264 | Re-inserting at the remembered index restores the tile if and only if a whole item of it was taken. |
| `Returns.MergeIntoLikeStack` | crates/server/src/game/item_movement.rs:357-404 | Reports whether units moved, what is left of the item, and the exact new world. |
| `Returns.MergingKeepsTheCap` | crates/server/src/game/item_movement.rs:410-421 | Merging never pushes a stack past 100. |
| `Returns.MergingKeepsInsertable` | crates/server/src/game/item_movement.rs:303-355 | Merging changes no container's place, capacity or length, so what is left can be inserted where the item could. |
| `Returns.ReturnItem` | crates/server/src/game/item_movement.rs:303-351 | The world gains the item, less what is left of it when all its units merged away (its name; for a container, its contents too); it fails only when the player is gone; and if no stack anywhere was over 100, none is. |
| `Returns.ReturnAddsTheItem` | crates/server/src/game/item_movement.rs:303-351 | The equation behind it, over merging, a new entry, the feet and the failure; of an item that is no container exactly the name goes missing. |
| `Returns.ReturnKeepsTheCap` | crates/server/src/game/item_movement.rs:303-421 | Returning an item within the cap leaves every stack on tiles and in inventories within it. |
| `ReturnLaws.MergingMeans` | crates/server/src/game/item_movement.rs:354-421 | Units move if and only if there are some and the place - tile, slot or container found - has a cumulative item of the same id below 100; they go to the first such item, as many as it takes, and nothing elsewhere changes. |
| `ReturnLaws.PuttingBackMeans` | crates/server/src/game/item_movement.rs:333-351 | The entry comes to lie at the place if that takes it - a tile at the index or on top, a free slot, a container with space, within what the player can carry - and else on top of the tile at the feet, or nowhere without a player. |
| `ReturnLaws.ReturningMeans` | crates/server/src/game/item_movement.rs:303-351 | Without such a stack the whole item becomes an entry; with one, what the stack does not take does, and nothing if it takes all. |
| `CarriedSearch.FindsTheFirstCarried` | crates/server/src/game/map_query.rs:226-267 | What is found is the first match in slot order, each slot searched depth first in pre-order; none is found exactly when none is carried. |
| `CarriedSearch.SearchOverlooksNothing` | crates/server/src/game/map_query.rs:226-267 | A search that finds nothing leaves no unit of the id in the inventory's tally. |
| `CarriedSearch.FoundPlacementResolves` | crates/server/src/game/map_query.rs:320-352 | With unique names the placement reported resolves to the very item found. |
| `Participation.Register.Record` | crates/server/src/entities/combat.rs:88-93 | Adds to the attacker's entry in place, or appends one. |
| `Participation.RecordAdds` | crates/server/src/entities/combat.rs:88-98 | A hit raises the attacker's entry and the total by itself and no one else's; entries stay distinct. |
| `Participation.SharesNeverExceedThePool` | crates/server/src/entities/combat.rs:100-113 | The shares sum to at most the pool, and rounding keeps back less than one point per contributor. |
| `Participation.SharesAreSomething` | crates/server/src/entities/combat.rs:106-112 | Whoever would get less than one point is left out. |
| `Skills.Advance` | crates/server/src/game/skills.rs:63-81 | The levelling loop ends on every curve, in the value the recursive climb reaches, with its number of levels. |
| `Skills.ClimbInTwoStages` | crates/server/src/game/skills.rs:66-78 | Climbing with some ticks and then with more is climbing with all of them. |
| `Skills.AwardsCompose` | crates/server/src/game/skills.rs:63-81 | Awarding a and then b gives the level, remainder and gain of a + b, on every curve, absent saturation. |
| `Skills.LevelCostIsQuadratic` | crates/server/src/game/skills.rs:12-30 | The step into level L costs 50(L*L - 5L + 8). |
| `Skills.CeilingsOfTheLevelCurve` | crates/server/src/game/skills.rs:68-73 | The loop's ceiling guard fires at levels 0, 2 and 65535, and at no other. |
| `Skills.LevelTwoIsACeiling` | crates/server/src/game/skills.rs:63-81 | No award takes a character past level 2. |
| `Skills.AboveLevelTwoTheAwardIsSpent` | crates/server/src/game/skills.rs:63-81 | From level 3 on, the loop stops only when the next level cannot be paid for or there is none. |
| `Skills.AwardIsTotalExperience` | crates/server/src/game/skills.rs:57-81 | An award raises total experience by exactly itself. |
| `Skills.FullBarIff` | crates/server/src/game/skills.rs:40-55 | The progress bar is full exactly at a ceiling or when the loop would climb. |
| `Loot.AddToCorpse` | crates/server/src/game/death.rs:108-149 | Puts in the portions of the roll one by one, up to and including the one that fills the corpse. |
| `Loot.PortionsAreTheRoll` | crates/server/src/game/death.rs:126-146 | The portions add up to the roll: hundreds and one stack of the rest of what stacks, single items of anything else. |
| `Loot.CorpseTakesItsPlaces` | crates/server/src/game/death.rs:117-149 | Of the portions of a roll the corpse holds as many as it has places, in order, and drops the others; it reports full exactly when there are as many; without a capacity, or without room, it has one place. |
| `Loot.NothingIsDroppedIff` | crates/server/src/game/death.rs:117-149 | The whole roll is in the corpse if and only if it has a place for every portion; a corpse without a capacity keeps exactly the first. |
| `Loot.RollCreatureLoot` | crates/server/src/game/death.rs:89-105 | The entries of the table in order, up to and including the one that fills the corpse. |
| `Loot.LootTakesItsPlaces` | crates/server/src/game/death.rs:89-149 | Of all the stacks of a creature's table, in order, the corpse takes as many as it has places and drops the others; what was in it stays. |
| `Combat.SetTarget` | crates/server/src/game/targeting.rs:6-28 | The target set is another agent of the map; that nobody is their own target, and that only a target has a request number, stays so; a refused request is announced with its number. |
| `Battle.RequestedTarget` | crates/server/src/game/targeting.rs:6-28 | Afterwards the target and its number are those of the request exactly when it names another agent of the map, and none and 0 otherwise; nobody else changes. |
| `Combat.LoseTarget` | crates/server/src/game/targeting.rs:32-50 | Clears the target and announces it once, with the number that set it; nothing without one. |
| `Combat.DropUnreachableTarget` | crates/server/src/game/targeting.rs:57-78 | Drops exactly the targets that are gone, on another floor, or more than nine tiles to the side or seven up or down. |
| `Battle.DropsWhoIsOutOfReach` | crates/server/src/game/map_query.rs:415-417 | The test of the viewport is that one, on coordinates. |
| `Combat.Award` | crates/server/src/game/experience.rs:8-22 | Each player is awarded its share of the victim's experience. |
| `Battle.ReapingAwardsTheShares` | crates/server/src/game/experience.rs:8-22 | A player's total experience rises by floor(worth * damage / total), and all shares together by at most the worth. |
| `Battle.DeathPaysTheShares` | crates/server/src/game/damage.rs:41-81 | In a state where attackers are listed once each, a hit that kills pays each player in proportion to a table that adds up to the life left plus all damage credited before. |
| `Battle.SharesDoNotWrap` | crates/server/src/entities/combat.rs:100-113 | While a table adds up to less than 2^32, the product its shares are computed from fits 64 bits. |
| `Combat.Reap` | crates/server/src/game/death.rs:16-105 | A dead creature leaves the map and its tile, nobody targets it any more, its shares are paid, its corpse with its loot lies on its tile and its respawn is booked; nobody else is reaped. |
| `Battle.ReapingAddsTheCorpse` | crates/server/src/game/death.rs:45-69 | A death adds its corpse to what the world holds and takes nothing from it. |
| `Combat.ApplyDamage` | crates/server/src/game/damage.rs:18-82 | Clamps to what can be survived or taken, records the source's participation, leaves blood where there is any, and reaps exactly the creatures whose life reaches zero. |
| `Combat.DrawBlood` | crates/server/src/game/damage.rs:112-158 | The pool goes straight onto the ground, the first pool that was there is removed, and the drying of the new one is booked. |
| `Blood.BloodDoesNotPileUp` | crates/server/src/game/damage.rs:112-158 | A tile with at most one pool of blood ends with exactly one, however often something bleeds there. |
| `Blood.BloodLiesOnTheGround` | crates/server/src/game/damage.rs:121-154 | The pool lies straight on the ground, the first pool there was is gone, and nothing else moves. |
| `Battle.LifeLostIsDamageCredited` | crates/server/src/game/damage.rs:33-62 | Over any sequence of sourced hits, a creature's life plus its participation total is constant. |
| `Battle.HitsAreStrikes` | crates/server/src/game/damage.rs:41-81 | A hit of the pass is one such strike; the creature is gone exactly when the damage reaches its life. |
| `Battle.PlayersKeepOnePoint` | crates/server/src/game/damage.rs:33-62 | A player hit loses the damage or all but one point of life, and nothing else about it changes. |
| `Battle.HitThins` | crates/server/src/game/damage.rs:18-82 | A hit moves no one, adds no one, redirects no target, and leaves no target on an agent it removed. |
| `Battle.PassKeepsCredit` | crates/server/src/game/systems.rs:6-30 | Over a whole pass: attackers stay listed once each, and life plus participation total is constant for every creature that lives through it. |
| `Combat.ExecuteAttack` | crates/server/src/game/combat.rs:255-310 | Pays for the shot, hit or miss, then applies the planned hits in order, none when the missile missed. |
| `Battle.AShotCostsOneUnit` | crates/server/src/game/combat.rs:255-261 | A shot that can be paid for takes exactly one unit of the ammunition named out of the shooter's inventory, and nothing else from anyone. |
| `Battle.MissesHurtNobody` | crates/server/src/game/combat.rs:255-310 | A missile that misses costs its ammunition and changes no life, tile or table. |
| `Battle.AttacksLandIff` | crates/server/src/game/combat.rs:255-310 | Every other blow takes its damage off the creature it is dealt to, and is credited to who dealt it. |
| `Battle.HitsLandInOrder` | crates/server/src/game/combat.rs:255-310 | Hits one after the other are the first ones and then the rest, each on what the ones before left. |
| `Battle.TurnsByTarget` | crates/server/src/game/systems.rs:14-30 | Without a target nothing is done; a target out of reach is dropped and nothing more is done; otherwise the attack decided on is made. |
| `Battle.DeathsBookRespawns` | crates/server/src/game/death.rs:72-87 | A creature that respawns is booked for its origin, its time after its death. |
| `Combat.CombatSystem` | crates/server/src/game/systems.rs:6-30 | After every pass each agent on the map has life at least 1, and any target it holds is on the map, on its floor, at most nine tiles to the side and seven up or down; nobody has come to target themselves; what creatures lost is what their attackers are credited with. |
| `Battle.PassIsSafe` | crates/server/src/game/systems.rs:6-30 | The same for every order of turns and every choice of attacks, though agents die during the pass. |
| `World.DeniedLogoutComesBackLater` | crates/server/src/actors/world.rs:481-509 | A logout is requeued exactly while the player is walking, strictly in the future, at a tick that walk no longer denies. |
| `World.DeniedIsScheduled` | crates/server/src/actors/world.rs:282-305 | Whichever of the commands of a tick is a denied logout, it is among what the tick schedules, strictly in the future. |
| `World.LogoutsSurvive` | crates/server/src/actors/world.rs:282-305 | A logout pending before a tick is pending after it, unless one of that player's logouts was run and granted, or the player was gone. |
| `World.CommandQueue.PopDue` | crates/server/src/actors/world.rs:296-303 | Takes a command of the earliest tick if that tick has come, and otherwise none is due. |
| `World.TopIsEarliest` | crates/server/src/actors/world.rs:144-154 | The reversed ordering makes the heap's greatest element the earliest. |
| `World.DueIsUnique` | crates/server/src/actors/world.rs:296-303 | There is only one way to split a queue into the due and the rest. |
| `World.WorldActor.Receive` | crates/server/src/actors/world.rs:271-277 | A message is queued for the next tick, or after its delay. |
| `World.WorldActor.Drain` | crates/server/src/actors/world.rs:296-303 | Ends although handlers push; runs in nondecreasing tick order; leaves only future commands; the world is what running them in that order makes of it. |
| `World.WorldActor.Tick` | crates/server/src/actors/world.rs:282-305 | Runs exactly the commands due, once each and in order, then the systems, and queues exactly what they schedule; over every run nothing is lost, repeated or late, and no logout is lost before it is granted. |
| `Events.DedupeRefreshes` | crates/server/src/game/events.rs:270-283 | The backward pass with its set of seen keys computes the specified subsequence. |
| `Events.KeepsExactlyTheCurrent` | crates/server/src/game/events.rs:268-283 | The result is the order-preserving subsequence of exactly the unkeyed messages and the last of each key. |
| `Events.OneRefreshPerKey` | crates/server/src/game/events.rs:252-283 | No key is lost and none is reported twice. |
| `Events.RefreshTheSameIff` | crates/server/src/game/events.rs:252-268 | Two messages carry the same refresh if and only if they are about the same tile, the same player's mana, the same slot of the same player, or the same container. |
| `Events.DedupeIsIdempotent` | crates/server/src/game/events.rs:270-283 | A second pass changes nothing. |
| `Pathfinding.SuccessorsAreTheSteps` | crates/server/src/game/pathfinding.rs:106-141 | The edges are all and only the steps by one tile, diagonals included and held at the map edge, to tiles within the bounds that can be walked on and have a friction, each at its ticks and at least one; in the order that breaks ties. |
| `Pathfinding.HeuristicIsConsistent` | crates/server/src/game/pathfinding.rs:106-160 | Along every edge, map-edge saturation included, the estimate drops by at most the edge's cost. |
| `Pathfinding.HeuristicIsAdmissible` | crates/server/src/game/pathfinding.rs:154-167 | The estimate never exceeds the cost of any route to the goal. |
| `Pathfinding.HeuristicIsTight` | crates/server/src/game/pathfinding.rs:154-160 | On open ground some route to the goal costs exactly the estimate, so no larger one is admissible. |
| `Pathfinding.OtherFloorsAreUnreachable` | crates/server/src/game/pathfinding.rs:36-64 | No route meets a goal on another floor, so giving up at once is right. |
| `Pathfinding.CostToIsTheCheapestMeetingTile` | crates/server/src/game/pathfinding.rs:90-104 | The offset square gives the minimum cost over all reached tiles that meet the goal. |
| `LineOfSight.WalkAxis` | crates/server/src/game/map_query.rs:373-392 | The error accumulator visits the closed form b0 + floor(i * db / da), which stays between the two ends. |
| `LineOfSight.PointAt` | crates/server/src/game/map_query.rs:373-392 | Every point of the line lies between the ends, so no cast truncates. |
| `LineOfSight.CrossesEachColumnOnce` | crates/server/src/game/map_query.rs:394-411 | A sight line crosses one tile in every column - or row, when steeper - strictly between its ends, and that one where the line passes. |
| `LineOfSight.IsSightClear` | crates/server/src/game/map_query.rs:394-412 | Clear when the shortcut applies or nothing on the line blocks; the walk is always called with the major axis normalised. |
| `LineOfSight.SightIsSymmetricIff` | crates/server/src/game/map_query.rs:394-412 | Sight is the same both ways, whatever blocks it, if and only if the shortcut decides alike both ways. |
| `LineOfSight.SightMeetsTheLineIff` | crates/server/src/game/map_query.rs:394-412 | The test is the line test if and only if the shortcut does not apply or the two are neighbours. |
| `LineOfSight.SightPassesWallsToTheWest` | crates/server/src/game/map_query.rs:395-398 | A wall five tiles to the west does not stop a throw ten tiles to the west; it stops the throw back. |
| `LineOfSight.CanThrow` | crates/server/src/game/map_query.rs:420-442 | Never between surface and underground; downwards only over tiles on every floor between; sighted on the upper floor. |
| `Viewport.WindowsAgree` | crates/server/src/game/map_query.rs:33-99 | In range, the signed 16-bit window is the floor viewport. |
| `Viewport.FloorViewportIff` | crates/server/src/game/map_query.rs:33-60 | A tile of a floor is in view exactly within nine tiles to the side and seven up or down of the centre moved by the floors between; a window wholly off the map shows the first row or column. |
| `Viewport.ExpansionIsTheDifferenceIff` | crates/server/src/game/map_query.rs:90-129 | For all eight directions and every floor, the strips after a step are the new window minus the old one, if and only if the leading edge is not clamped. |
| `Viewport.StripsAreDisjoint` | crates/server/src/game/map_query.rs:102-128 | The two strips of a diagonal step share no tile. |
| `Viewport.ExpansionOfTheOldPositionIsOldNews` | crates/server/src/actors/session/movement.rs:93-96 | Asked for the position walked from, the strips name only tiles already in view. |
| `Otbm.Parser.ReadDataByte` | crates/server/src/persistence/map.rs:105-118 | The escape rule on the cursor. |
| `Otbm.Parser.SkipWholeNode` | crates/server/src/persistence/map.rs:173-181 | The recursion on the cursor is the recursive grammar, and ends on every input. |
| `Otbm.SkipTakesOneNode` | crates/server/src/persistence/map.rs:156-181 | Skipping gets to `rest` if and only if exactly one encoded node, of any kind, stands before it. |
| `Otbm.Parser.NextItem` | crates/server/src/persistence/map.rs:352-405 | Parsing an item on the cursor is the grammar's item, errors included, and ends on every input. |
| `Otbm.ItemsAreWhatIsEncoded` | crates/server/src/persistence/map.rs:352-405 | Parsing gives an item and stops at `rest` if and only if the bytes before `rest` encode an item tree over known ids that means it: any of the seventeen attributes by their tags and widths, any superfluous escapes, foreign nodes anywhere among the children. So everything else is refused. |
| `Otbm.ParseUndoesPrint` | crates/server/src/persistence/map.rs:352-405 | The escaped encoding of any item tree over known ids parses to the same ids, amounts and nesting, with the cursor just past its end marker. |
| `Otbm.ChildrenAreRead` | crates/server/src/persistence/map.rs:392-400 | Item children are kept in order, other nodes are skipped. |
| `Otbm.Parser.NextTile` | crates/server/src/persistence/map.rs:284-333 | Parsing a tile on the cursor is the grammar's tile, errors included. |
| `Otbm.TilesAreWhatIsEncoded` | crates/server/src/persistence/map.rs:284-333 | The same for tiles and house tiles: position, ground items, and the items stacked on them. |
| `Otbm.ParseTileUndoesPrint` | crates/server/src/persistence/map.rs:284-333 | The encoding of a tile parses to its position, its ground items and the items stacked on it. |
| `Codec.Decoder.Decode` | crates/server/src/messages.rs:338-475 | An incomplete frame yields nothing and consumes nothing; a complete one yields what the frame grammar reads. |
| `Codec.FrameReads` | crates/server/src/messages.rs:338-534 | Reading the printed frame of any well-formed message gives that message and leaves what follows. |
| `Codec.FramesAreWhatIsPrinted` | crates/server/src/messages.rs:338-534 | A whole frame is read as a message if and only if behind its length stand exactly the bytes of that message - valid text, and where a text runs to the end of the frame, as long as the frame says - and every other frame is refused. |
| `Codec.PartialFrameIsIncomplete` | crates/server/src/messages.rs:338-347 | Any proper prefix of a frame is incomplete. |
| `Codec.ReadStream` | crates/server/src/messages.rs:338-475 | However the bytes of a list of messages are cut into chunks, decoding after each yields exactly that list and ends on a frame boundary. |

## Left out

- Moves.MoveItem: its preconditions are what the source takes for granted: a slot named as source or target is the mover's own, equipped items have a slot attribute, names are unique, and a container named has a capacity and, when it has room, is addressed within its contents.
- MoveLaws.MoveKeepsHandsLegal: is not stated for a bare slot as source: what was worn is laid into that slot without a check of the hands.
- MoveLaws.SwapOfSlotsConservesIff: is stated for players within capacity; `MoveLaws.MoveConservesIff` covers the others.
- Returns.ReturnItem: takes as given that an item id determines its configuration, as the catalogue of the server does.
- Combat.ExecuteAttack: leaves out the mana an attack costs and the training of weapon and shield skills; neither touches life, targets or the map's agents.
- Combat.ApplyDamage: whether a wound bleeds, and the fluid of its pool, are part of the damage given.
- Combat.CombatSystem: the attack an agent decides on is a parameter, so the planning with its rolls, ranges and area masks is not modelled, nor is the cooldown stamp.
- Battle.ReapingAwardsTheShares: is stated where total experience stays below 2^64, past which the source saturates.
- Participation.SharesNeverExceedThePool: computes the total and pool * damage without the wrap at 2^64, which a table of less than 2^32 damage does not reach (`Battle.SharesDoNotWrap`).
- Codec.Decoder.Decode: does not say what is left in the buffer after a body that fails to decode.
- LineOfSight.CanThrow: does not model the signed byte the source subtracts floors in, which differs only for floors above 127; the game has sixteen.
- Viewport.ExpansionIsTheDifferenceIff: is stated inside the signed 16-bit range and for windows that reach the map, outside of which coordinates wrap.
- Otbm.TilesAreWhatIsEncoded: a tile whose position does not fit 16 bits is refused, where the loader panics or wraps; file header, root node and tile areas are not modelled. Which error a refusal reports is modelled, but no law is stated about it.
- Codec.ReadStream: is stated for streams of well-formed frames; what a frame does whose body disagrees with its length is said for one frame by `Codec.FramesAreWhatIsPrinted`.
- Weights are natural numbers: the wrap of the 32-bit total is not modelled.
- Item trees are values, so writing through a mutable reference is replacing the first node of that name; sharing between map snapshots and copy-on-write are not modelled.
- Fresh guids and slot-map keys are parameters or a counter; their generation is not modelled.
- Validity of text as UTF-8 is a predicate parameter.
- The binary heap is a multiset with a specified pop; the path searches themselves are library code and not modelled.
- Walk durations and skill curves other than the level curve use floating point and are parameters.
- The fluid of an item, descriptions, outfits and effects are dropped.
- The encoder of messages to the client, routing tables, chat, spells, accounts, the database, the site and all networking are not modelled.
