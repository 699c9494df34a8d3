/**
 Moves out of slots and containers that lose something, and a refused one that undresses the
 player; and a scene in which each of them can happen.
 */
module MoveExamples {
  import opened Wrappers
  import opened Positions
  import opened Items
  import opened Inventories
  import opened GameMaps
  import opened Ledgers
  import opened Scenes
  import opened ItemMovement
  import opened Chunks
  import opened Moves
  import opened MoveLaws

  function Plain(id: U16, flags: set<ItemFlag>, weight: U32, slot: Option<InventorySlot>): ItemConfig {
    ItemConfig(id, flags, None, Some(weight), slot, false, false, None, None, None, None, None)
  }

  function Pack(name: Guid, inside: seq<Item>): Item {
    Holder(name, Plain(2854, {ContainerFlag, Take}, 1800, Some(Backpack)).(capacity := Some(20)), 1, inside)
  }

  // Throwing stars stack, and are worn in the left hand.
  function Stars(name: Guid, amount: U8): Item {
    Solid(name, Plain(3287, {Cumulative, Take}, 200, Some(LeftHand)), amount)
  }

  ghost predicate Ready(sc: Scene, k: AgentKey, feet: Position, newName: Guid) {
    && IsPlayerOf(sc.agents, k) && WearsSlotted(BagOf(sc.agents, k)) && feet in sc.tiles
    && Named(sc, newName)
  }

  // ---------------------------------------------------------------- throwing stars

  ghost predicate HasStars(slots: Slots, stars: Guid, pack: Guid, inside: seq<Item>) {
    && LeftHand in slots && slots[LeftHand] == Stars(stars, 10)
    && Backpack in slots && slots[Backpack] == Pack(pack, inside) && |inside| == 20
  }

  // Into a full backpack. The move is refused, and what is put back into the hand is written
  // over what was left there; had all ten been moved, they would be lost when the player
  // carries too much, and only otherwise come back.
  lemma {:induction false} StarsIntoAFullBackpack(sc: Scene, k: AgentKey, feet: Position, stars: Guid,
                                                  pack: Guid, inside: seq<Item>, newName: Guid, amount: U8)
    requires Ready(sc, k, feet, newName) && HasStars(BagOf(sc.agents, k), stars, pack, inside)
    requires 1 <= amount <= 10
    ensures var (from, to) := (InInventory(LeftHand, k), InContainer(pack, InInventory(Backpack, k), 0));
            && Begins(sc, k, from, stars, amount, to, newName, feet)
            && !AfterMove(sc, k, from, stars, amount, to, newName, feet).0
            && (Conserved(sc, k, from, stars, amount, to, newName, feet) <==> amount == 10 && CanCarry(sc.agents, k, 0))
  {
    var (from, to) := (InInventory(LeftHand, k), InContainer(pack, InInventory(Backpack, k), 0));
    StarsBegin(sc, k, feet, stars, pack, inside, newName, amount);
    RefusedMoveConservesIff(sc, k, from, stars, amount, to, newName, feet);
  }

  lemma {:induction false} StarsBegin(sc: Scene, k: AgentKey, feet: Position, stars: Guid, pack: Guid,
                                      inside: seq<Item>, newName: Guid, amount: U8)
    requires Ready(sc, k, feet, newName) && HasStars(BagOf(sc.agents, k), stars, pack, inside)
    requires 1 <= amount <= 10
    ensures var (from, to) := (InInventory(LeftHand, k), InContainer(pack, InInventory(Backpack, k), 0));
            && Begins(sc, k, from, stars, amount, to, newName, feet)
            && !AfterMove(sc, k, from, stars, amount, to, newName, feet).0
  {
    var (slots, from) := (BagOf(sc.agents, k), InInventory(LeftHand, k));
    var to := InContainer(pack, InInventory(Backpack, k), 0);
    assert IndexOf([slots[LeftHand]], stars) == Some(0);
    assert CanTake(sc, from, stars, amount, newName);
    RemovedKeeps(sc, k, from, stars, amount, newName);
    RemovedIsUnique(sc, from, stars, amount, newName);
    TakenFromWhere([slots[LeftHand]], stars, amount, newName);
    BagWritten(sc.agents, k, Drawn(slots, LeftHand, stars, amount, newName));
    var sc1 := Removed(sc, from, stars, amount, newName);
    var x := TakenOf(sc, from, stars, amount, newName).removed;
    FullPackRefuses(sc1, k, pack, inside, x);
    assert NamedAt(sc, from, stars) == Some(slots[LeftHand]);
    assert MayBegin(sc, feet, from, stars, amount, to);
    assert WellAddressed(sc, k, from, stars, amount, to, newName);
  }

  lemma {:induction false} FullPackRefuses(sc: Scene, k: AgentKey, pack: Guid, inside: seq<Item>, x: Item)
    requires IsPlayerOf(sc.agents, k)
    requires Backpack in BagOf(sc.agents, k) && BagOf(sc.agents, k)[Backpack] == Pack(pack, inside)
    requires |inside| == 20
    ensures var to := InContainer(pack, InInventory(Backpack, k), 0); InsertOk(sc, to, x) && !Takes(sc, to, x)
  {
    var it := Pack(pack, inside);
    assert FindByGuid(it, pack) == Some(it) && Capacity(it) == 20 && !HasRoom(Some(it));
  }

  // Onto the hand they are already in. This move goes through, and the stars not moved are
  // gone.
  lemma {:induction false} StarsOntoTheSameHand(sc: Scene, k: AgentKey, feet: Position, stars: Guid,
                                                newName: Guid, amount: U8)
    requires Ready(sc, k, feet, newName) && 1 <= amount < 10 && CanCarry(sc.agents, k, 0)
    requires LeftHand in BagOf(sc.agents, k) && BagOf(sc.agents, k)[LeftHand] == Stars(stars, 10)
    ensures var p := InInventory(LeftHand, k);
            && Begins(sc, k, p, stars, amount, p, newName, feet)
            && !Conserved(sc, k, p, stars, amount, p, newName, feet)
  {
    assert IndexOf([BagOf(sc.agents, k)[LeftHand]], stars) == Some(0);
    PartOntoItsOwnSlotLosesTheRest(sc, k, LeftHand, stars, amount, newName, feet);
  }

  // ---------------------------------------------------------------- a helmet too heavy to wear

  function Helmet(name: Guid, weight: U32): Item { Solid(name, Plain(3351, {Take}, weight, Some(Head)), 1) }

  // A player beneath a helmet on the ground, wearing another, too weak for the one on the
  // ground: the move is refused, and still the player ends bare-headed.
  lemma {:induction false} AHelmetTooHeavyUndresses(sc: Scene, k: AgentKey, feet: Position,
                                                    helmet: Guid, weight: U32, newName: Guid)
    requires Ready(sc, k, feet, newName)
    requires sc.tiles[feet].items == [Helmet(helmet, weight)]
    requires Head in BagOf(sc.agents, k) && sc.agents[k].inner.capacity < weight
    ensures var (from, to) := (OnMap(feet), InInventory(Head, k));
            && Begins(sc, k, from, helmet, 1, to, newName, feet)
            && !AfterMove(sc, k, from, helmet, 1, to, newName, feet).0
            && AfterMove(sc, k, from, helmet, 1, to, newName, feet).1 != sc
            && Conserved(sc, k, from, helmet, 1, to, newName, feet)
  {
    var (from, to) := (OnMap(feet), InInventory(Head, k));
    var x := Helmet(helmet, weight);
    assert IndexOf([x], helmet) == Some(0) && FindIn([x], helmet) == Some(x);
    assert CanTake(sc, from, helmet, 1, newName) && TakenOf(sc, from, helmet, 1, newName).removed == x;
    assert Begins(sc, k, from, helmet, 1, to, newName, feet);
    TooHeavy(sc, k, from, helmet, newName, feet, x);
    RefusalIsExactIff(sc, k, from, helmet, 1, to, newName, feet);
    MovesFromTilesConserve(sc, k, from, helmet, 1, to, newName, feet);
  }

  lemma {:induction false} TooHeavy(sc: Scene, k: AgentKey, from: ItemPlacement, g: Guid, newName: Guid,
                                    feet: Position, x: Item)
    requires IsPlayerOf(sc.agents, k) && WearsSlotted(BagOf(sc.agents, k)) && feet in sc.tiles && Named(sc, newName)
    requires from.OnMap? && CanTake(sc, from, g, 1, newName) && TakenOf(sc, from, g, 1, newName).removed == x
    requires FitsSlot(x, Head) && sc.agents[k].inner.capacity < TotalWeight(x)
    ensures !AfterMove(sc, k, from, g, 1, InInventory(Head, k), newName, feet).0
  {
    var sc1 := Removed(sc, from, g, 1, newName);
    RemovedKeeps(sc, k, from, g, 1, newName);
    RemovedIsUnique(sc, from, g, 1, newName);
    DislodgedKeeps(sc1, k, Head, from, feet);
    EquipPlaces(sc1, k, Head, x, from, feet);
  }

  // ---------------------------------------------------------------- a two-hander out of a full backpack

  ghost predicate ArmedBeforeAnAxe(slots: Slots, pack: Guid, axe: Item, rest: seq<Item>) {
    && Backpack in slots && slots[Backpack] == Pack(pack, [axe] + rest) && |rest| == 19 && FindAvailableIn(rest).None?
    && IsTwoHanded(axe) && axe.Solid? && axe.amount == 1 && Take in axe.config.flags && Unmove !in axe.config.flags
    && LeftHand in slots && RightHand in slots && slots[LeftHand].config.capacity.None?
  }

  // The sword in the left hand takes the place the axe leaves in the backpack, the shield
  // finds none and stays; the axe is refused, and the backpack is full again.
  lemma {:induction false} AnAxeOutOfAFullBackpack(sc: Scene, k: AgentKey, feet: Position, pack: Guid,
                                                   axe: Item, rest: seq<Item>, newName: Guid)
    requires Ready(sc, k, feet, newName) && ArmedBeforeAnAxe(BagOf(sc.agents, k), pack, axe, rest)
    requires CanCarry(sc.agents, k, 0)
    ensures var (from, to) := (InContainer(pack, InInventory(Backpack, k), 0), InInventory(LeftHand, k));
            && Begins(sc, k, from, axe.guid, 1, to, newName, feet)
            && !Conserved(sc, k, from, axe.guid, 1, to, newName, feet)
  {
    var (from, to) := (InContainer(pack, InInventory(Backpack, k), 0), InInventory(LeftHand, k));
    AxeBegins(sc, k, feet, pack, axe, rest, newName);
    var sc1 := Removed(sc, from, axe.guid, 1, newName);
    AxeTaken(sc, k, pack, axe, rest, newName);
    TakenCanBeCarried(sc, k, from, axe.guid, 1, newName);
    MoveConservesIff(sc, k, from, axe.guid, 1, to, newName, feet);
    RemovedIsUnique(sc, from, axe.guid, 1, newName);
    AxeLosesItsPlace(sc1, k, feet, pack, axe, rest);
  }

  lemma {:induction false} AxeBegins(sc: Scene, k: AgentKey, feet: Position, pack: Guid, axe: Item,
                                     rest: seq<Item>, newName: Guid)
    requires Ready(sc, k, feet, newName) && ArmedBeforeAnAxe(BagOf(sc.agents, k), pack, axe, rest)
    ensures var (from, to) := (InContainer(pack, InInventory(Backpack, k), 0), InInventory(LeftHand, k));
            Begins(sc, k, from, axe.guid, 1, to, newName, feet)
  {
    var from := InContainer(pack, InInventory(Backpack, k), 0);
    var it := Pack(pack, [axe] + rest);
    assert FindByGuid(it, pack) == Some(it);
    assert it.inside[0] == axe && NamedAt(sc, from.within, pack) == Some(it);
    SlotIsUnique(sc, k, Backpack);
    TallyOne(it);
    OneIsFound(it, axe.guid);
    NestedFoundInside(it, pack, 0);
    assert it.inside[0] == axe;
    TakesWhatIsFound([it], axe.guid, 1, newName);
    assert Site(from) == Slot(Backpack, k) && BagOf(sc.agents, k)[Backpack] == it;
    assert CanTake(sc, from, axe.guid, 1, newName);
    assert ContainerAt(sc, from) == FindByGuid(BagOf(sc.agents, k)[Backpack], pack);
    assert ContainerAt(sc, from) == Some(it);
    assert NamedAt(sc, from, axe.guid) == Some(axe);
  }

  lemma {:induction false} AxeTaken(sc: Scene, k: AgentKey, pack: Guid, axe: Item, rest: seq<Item>, newName: Guid)
    requires IsPlayerOf(sc.agents, k) && Unique(SceneTally(sc)) && WearsSlotted(BagOf(sc.agents, k))
    requires ArmedBeforeAnAxe(BagOf(sc.agents, k), pack, axe, rest)
    requires CanTake(sc, InContainer(pack, InInventory(Backpack, k), 0), axe.guid, 1, newName)
    ensures var (from, slots) := (InContainer(pack, InInventory(Backpack, k), 0), BagOf(sc.agents, k));
            && TakenOf(sc, from, axe.guid, 1, newName).removed == axe
            && Removed(sc, from, axe.guid, 1, newName) == WithSlots(sc, k, slots[Backpack := Pack(pack, rest)])
  {
    var it := Pack(pack, [axe] + rest);
    SlotIsUnique(sc, k, Backpack);
    assert BagOf(sc.agents, k)[Backpack] == it;
    assert Site(InContainer(pack, InInventory(Backpack, k), 0)) == Slot(Backpack, k);
    assert CanDraw(BagOf(sc.agents, k), Backpack, axe.guid, 1, newName);
    AxeTakenFromPack(pack, axe, rest, newName);
    assert WithSlot(BagOf(sc.agents, k), Backpack, [Pack(pack, rest)])
           == BagOf(sc.agents, k)[Backpack := Pack(pack, rest)];
  }

  lemma {:induction false} AxeTakenFromPack(pack: Guid, axe: Item, rest: seq<Item>, newName: Guid)
    requires Unique(Tally(Pack(pack, [axe] + rest))) && axe.amount == 1
    requires TakeFrom([Pack(pack, [axe] + rest)], axe.guid, 1, newName).Some?
    ensures var t := TakeFrom([Pack(pack, [axe] + rest)], axe.guid, 1, newName).value;
            t.removed == axe && t.rest == [Pack(pack, rest)]
  {
    var it := Pack(pack, [axe] + rest);
    var items := [it];
    assert it.inside[0] == axe && FindByGuid(it, pack) == Some(it);
    NamedBelow(it, pack, 0);
    NestedTakesFromContainer(it, pack, 0, 1, newName);
    assert items[1..] == [] && items[0] == it;
    assert IndexOf(items[1..], axe.guid).None? && IndexOf(items, axe.guid).None?;
    assert TakeFrom(items, axe.guid, 1, newName) == TakeDeep(items, axe.guid, 1, newName);
    assert TakeDeep(items[1..], axe.guid, 1, newName).None?;
    var (left, t) := TakeNested(it, axe.guid, 1, newName).value;
    assert FindByGuid(left, pack) == Some(left);
    assert Without(it.inside, 0) == rest;
    assert [left] + items[1..] == [left];
  }

  lemma {:induction false} AxeLosesItsPlace(sc: Scene, k: AgentKey, feet: Position, pack: Guid, axe: Item,
                                            rest: seq<Item>)
    requires IsPlayerOf(sc.agents, k) && feet in sc.tiles && Unique(SceneTally(sc)) && CanCarry(sc.agents, k, 0)
    requires Backpack in BagOf(sc.agents, k) && BagOf(sc.agents, k)[Backpack] == Pack(pack, rest)
    requires |rest| == 19 && FindAvailableIn(rest).None? && IsTwoHanded(axe)
    requires LeftHand in BagOf(sc.agents, k) && RightHand in BagOf(sc.agents, k)
    requires BagOf(sc.agents, k)[LeftHand].config.capacity.None?
    ensures !LosesNothing(sc, k, InInventory(LeftHand, k), axe, InContainer(pack, InInventory(Backpack, k), 0), feet)
  {
    var (slots, from) := (BagOf(sc.agents, k), InContainer(pack, InInventory(Backpack, k), 0));
    var sword := slots[LeftHand];
    var emptied := WithSlots(sc, k, slots - {LeftHand});
    var (it, full) := (Pack(pack, rest), Pack(pack, [sword] + rest));
    EmptiedCarries(sc, k, LeftHand);
    assert FindByGuid(it, pack) == Some(it);
    assert Backpack in BagOf(emptied.agents, k) && BagOf(emptied.agents, k)[Backpack] == it;
    assert Site(from) == Slot(Backpack, k);
    assert ContainerAt(emptied, from) == Some(it);
    TakesIff(emptied, from, sword);
    assert Spliced(rest, 0, sword) == [sword] + rest;
    var d := Dislodged(sc, k, LeftHand, from, feet);
    DislodgedKeeps(sc, k, LeftHand, from, feet);
    BagWritten(emptied.agents, k, Packed(slots - {LeftHand}, Backpack, pack, 0, sword));
    assert BagOf(d.agents, k)[Backpack] == full;
    assert FindByGuid(full, pack) == Some(full) && ContainerAt(d, from) == Some(full);
    TakesIff(d, from, axe);
    assert ([sword] + rest)[1..] == rest;
    assert FindAvailable(sword).None? && FindAvailableIn([sword] + rest).None?;
    assert FindAvailable(full).None?;
  }

  // ---------------------------------------------------------------- a fixture by another index

  // A fixture alone in a container at the player's feet, asked for at the index after it: it
  // comes to lie on the tile.
  lemma {:induction false} AFixtureByAnotherIndex(sc: Scene, k: AgentKey, feet: Position, pack: Guid, fixture: Item,
                                                  newName: Guid)
    requires Ready(sc, k, feet, newName) && MayLieOn(sc, feet, feet)
    requires FindIn(sc.tiles[feet].items, pack) == Some(Pack(pack, [fixture]))
    requires Unmove in fixture.config.flags && fixture.amount == 1
    ensures var (from, to) := (InContainer(pack, OnMap(feet), 1), OnMap(feet));
            && Begins(sc, k, from, fixture.guid, 1, to, newName, feet)
            && AfterMove(sc, k, from, fixture.guid, 1, to, newName, feet).0
            && TakenOf(sc, from, fixture.guid, 1, newName).removed == fixture
  {
    var (from, items) := (InContainer(pack, OnMap(feet), 1), sc.tiles[feet].items);
    TileIsUnique(sc, feet);
    FoundInside(items, pack, 0);
    TakesWhatIsFound(items, fixture.guid, 1, newName);
    assert NamedAt(sc, from, fixture.guid).None?;
    assert ContainerAt(sc, from) == Some(Pack(pack, [fixture]));
    assert CanTake(sc, from, fixture.guid, 1, newName);
    assert MayBegin(sc, feet, from, fixture.guid, 1, OnMap(feet));
  }

  // ---------------------------------------------------------------- there is such a scene

  function Alone(k: AgentKey, feet: Position, items: seq<Item>, slots: Slots, capacity: nat): Scene {
    Scene(map[feet := MapTile(items, [k])], map[k := Agent(Player(Resting(slots), capacity, None), 100, None, 0, [])])
  }

  lemma {:induction false} TallyOfTheScene(k: AgentKey, feet: Position, items: seq<Item>, slots: Slots, capacity: nat)
    ensures SceneTally(Alone(k, feet, items, slots, capacity)) == TallyAll(items) + HeldTally(slots)
  {
    var sc := Alone(k, feet, items, slots, capacity);
    var (t, b) := (OnTiles(sc.tiles), InBags(BagsOf(sc.agents)));
    SumSplits(t, feet);
    SumSplits(b, k);
    assert t - {feet} == map[] && b - {k} == map[];
    assert t[feet] == items && b[k] == Held(slots);
  }

  lemma {:induction false} OneMoreHeld(slots: Slots, s: InventorySlot, x: Item)
    requires s !in slots
    ensures HeldTally(slots[s := x]) == HeldTally(slots) + Tally(x)
  {
    SlotAssigned(slots, s, x);
    assert HeldTally(slots[s := x]) + multiset{} == HeldTally(slots[s := x]);
  }

  function StarSlots(stars: Guid, pack: Guid, inside: seq<Item>): Slots {
    map[][LeftHand := Stars(stars, 10)][Backpack := Pack(pack, inside)]
  }

  // Names that are neither in `t` nor the same.
  ghost predicate AllNew(t: multiset<Token>, a: Guid, b: Guid, c: Guid) {
    Unique(t) && Name(a) !in t && Name(b) !in t && Name(c) !in t && a != b && b != c && a != c
  }

  lemma {:induction false} StarsAreNamed(k: AgentKey, feet: Position, stars: Guid, pack: Guid, inside: seq<Item>,
                                         capacity: nat, newName: Guid)
    requires AllNew(TallyAll(inside), stars, pack, newName)
    ensures Named(Alone(k, feet, [], StarSlots(stars, pack, inside), capacity), newName)
  {
    var slots := StarSlots(stars, pack, inside);
    TallyOfTheScene(k, feet, [], slots, capacity);
    TallyOfStarSlots(stars, pack, inside);
    TwoNamesMore(TallyAll(inside), Tally(Stars(stars, 10)), OwnTally(Pack(pack, inside)), stars, pack, newName,
                 SceneTally(Alone(k, feet, [], slots, capacity)));
  }

  lemma {:induction false} StarsInAScene(k: AgentKey, feet: Position, stars: Guid, pack: Guid, inside: seq<Item>,
                                         capacity: nat, newName: Guid)
    requires AllNew(TallyAll(inside), stars, pack, newName) && |inside| == 20
    ensures var sc := Alone(k, feet, [], StarSlots(stars, pack, inside), capacity);
            Ready(sc, k, feet, newName) && HasStars(BagOf(sc.agents, k), stars, pack, inside)
  {
    StarsAreNamed(k, feet, stars, pack, inside, capacity, newName);
    StarsAreHeld(stars, pack, inside);
    AloneHolds(k, feet, [], StarSlots(stars, pack, inside), capacity);
  }

  lemma {:induction false} StarsAreHeld(stars: Guid, pack: Guid, inside: seq<Item>)
    requires |inside| == 20
    ensures var slots := StarSlots(stars, pack, inside); HasStars(slots, stars, pack, inside) && WearsSlotted(slots)
  {
    assert StarSlots(stars, pack, inside).Keys == {LeftHand, Backpack};
  }

  lemma {:induction false} AloneHolds(k: AgentKey, feet: Position, items: seq<Item>, slots: Slots, capacity: nat)
    ensures var sc := Alone(k, feet, items, slots, capacity);
            IsPlayerOf(sc.agents, k) && BagOf(sc.agents, k) == slots && sc.tiles == map[feet := MapTile(items, [k])]
  {
  }

  lemma {:induction false} TallyOfStarSlots(stars: Guid, pack: Guid, inside: seq<Item>)
    ensures HeldTally(StarSlots(stars, pack, inside))
            == Tally(Stars(stars, 10)) + (OwnTally(Pack(pack, inside)) + TallyAll(inside))
    ensures forall g :: Tally(Stars(stars, 10))[Name(g)] == (if g == stars then 1 else 0)
                        && OwnTally(Pack(pack, inside))[Name(g)] == if g == pack then 1 else 0
  {
    var hand: Slots := map[][LeftHand := Stars(stars, 10)];
    NothingWorn(ALL_SLOTS);
    OneMoreHeld(map[], LeftHand, Stars(stars, 10));
    OneMoreHeld(hand, Backpack, Pack(pack, inside));
    FromNothing(HeldTally(hand), HeldTally(map[]), Tally(Stars(stars, 10)));
  }

  lemma {:induction false} FromNothing(a: multiset<Token>, b: multiset<Token>, c: multiset<Token>)
    requires a == b + c && b == multiset{}
    ensures a == c
  {
  }

  lemma {:induction false} TwoNamesMore(t: multiset<Token>, x: multiset<Token>, y: multiset<Token>, a: Guid,
                                        b: Guid, c: Guid, all: multiset<Token>)
    requires AllNew(t, a, b, c) && all == multiset{} + (x + (y + t))
    requires forall g :: x[Name(g)] == (if g == a then 1 else 0) && y[Name(g)] == (if g == b then 1 else 0)
    ensures Unique(all) && Name(c) !in all
  {
    forall g ensures all[Name(g)] == x[Name(g)] + y[Name(g)] + t[Name(g)] {}
  }

  function Coin(i: nat): Item { Solid(Guid(seq(i, _ => 'c')), Plain(3031, {Take, Cumulative}, 10, None), 100) }

  function Coins(n: nat): (r: seq<Item>)
    ensures |r| == n
  {
    if n == 0 then [] else [Coin(n - 1)] + Coins(n - 1)
  }

  ghost predicate IsCoinName(g: Guid, n: nat) { |g.name| < n && g == Coin(|g.name|).guid }

  lemma {:induction false} CoinsAreDistinct(n: nat, g: Guid)
    ensures TallyAll(Coins(n))[Name(g)] == if IsCoinName(g, n) then 1 else 0
  {
    if n > 0 {
      CoinsAreDistinct(n - 1, g);
      var first := Coin(n - 1);
      assert Coins(n)[0] == first && Coins(n)[1..] == Coins(n - 1);
      assert |first.guid.name| == n - 1;
      assert Tally(first)[Name(g)] == if g == first.guid then 1 else 0;
    }
  }

  lemma {:induction false} CoinsAreNew(n: nat)
    ensures AllNew(TallyAll(Coins(n)), Guid("stars"), Guid("pack"), Guid("new"))
  {
    var (a, b, c) := (Guid("stars"), Guid("pack"), Guid("new"));
    assert a.name[0] == 's' && b.name[0] == 'p' && c.name[0] == 'n';
    forall g ensures TallyAll(Coins(n))[Name(g)] <= 1 { CoinsAreDistinct(n, g); }
    CoinsAreDistinct(n, a);
    CoinsAreDistinct(n, b);
    CoinsAreDistinct(n, c);
  }

  // A backpack can be full of coins: three stars of ten moved into it, and seven are lost.
  lemma {:induction false} SevenStarsAreLost(k: AgentKey, feet: Position, stars: Guid, pack: Guid, newName: Guid,
                                             n: nat, capacity: nat)
    requires AllNew(TallyAll(Coins(n)), stars, pack, newName) && n == 20
    ensures var sc := Alone(k, feet, [], StarSlots(stars, pack, Coins(n)), capacity);
            var (from, to) := (InInventory(LeftHand, k), InContainer(pack, InInventory(Backpack, k), 0));
            && Begins(sc, k, from, stars, 3, to, newName, feet)
            && !Conserved(sc, k, from, stars, 3, to, newName, feet)
  {
    var sc := Alone(k, feet, [], StarSlots(stars, pack, Coins(n)), capacity);
    StarsInAScene(k, feet, stars, pack, Coins(n), capacity, newName);
    StarsIntoAFullBackpack(sc, k, feet, stars, pack, Coins(n), newName, 3);
  }
}
