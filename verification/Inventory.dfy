/**
 What a player carries: one item tree per slot, a running total of the weight of all of
 them, and the equipment statistics derived from the slots. The total is kept by adding and
 subtracting at every change; here it is proved to be the sum it stands for.
 */
module Inventories {
  import opened Wrappers
  import opened Positions
  import opened Items

  type Slots = map<InventorySlot, Item>

  datatype MovementError =
    TileDoesNotExist | ItemNotInPosition | ContainerIsFull | NotEnoughCap | PlayerDespawned | CannotEquip

  // ---------------------------------------------------------------- what the slots hold

  function ItemsIn(slots: Slots, order: seq<InventorySlot>): seq<Item> {
    if order == [] then []
    else (if order[0] in slots then [slots[order[0]]] else []) + ItemsIn(slots, order[1..])
  }

  function Held(slots: Slots): seq<Item> { ItemsIn(slots, ALL_SLOTS) }

  ghost function HeldTally(slots: Slots): multiset<Token> { TallyAll(Held(slots)) }

  ghost function SlotTally(slots: Slots, s: InventorySlot): multiset<Token> {
    if s in slots then Tally(slots[s]) else multiset{}
  }

  ghost predicate SameExcept(a: Slots, b: Slots, s: InventorySlot) {
    forall t :: t != s ==> (t in a <==> t in b) && (t in a ==> a[t] == b[t])
  }

  ghost predicate Once(order: seq<InventorySlot>, s: InventorySlot) {
    s in order && forall i, j :: 0 <= i < j < |order| ==> order[i] != order[j]
  }

  lemma TallyOfOrder(slots: Slots, order: seq<InventorySlot>)
    requires order != []
    ensures TallyAll(ItemsIn(slots, order)) == SlotTally(slots, order[0]) + TallyAll(ItemsIn(slots, order[1..]))
  {
    var rest := ItemsIn(slots, order[1..]);
    if order[0] in slots {
      assert ([slots[order[0]]] + rest)[1..] == rest;
    } else {
      assert [] + rest == rest;
    }
  }

  lemma {:induction false} SameItemsElsewhere(a: Slots, b: Slots, s: InventorySlot, order: seq<InventorySlot>)
    requires SameExcept(a, b, s) && s !in order
    ensures ItemsIn(a, order) == ItemsIn(b, order)
  {
    if order != [] { SameItemsElsewhere(a, b, s, order[1..]); }
  }

  lemma {:induction false} OneSlotChanges(a: Slots, b: Slots, s: InventorySlot, order: seq<InventorySlot>)
    requires SameExcept(a, b, s) && Once(order, s)
    ensures TallyAll(ItemsIn(a, order)) + SlotTally(b, s) == TallyAll(ItemsIn(b, order)) + SlotTally(a, s)
  {
    TallyOfOrder(a, order);
    TallyOfOrder(b, order);
    if order[0] == s {
      assert s !in order[1..];
      SameItemsElsewhere(a, b, s, order[1..]);
    } else {
      OneSlotChanges(a, b, s, order[1..]);
      Balance(SlotTally(a, order[0]), TallyAll(ItemsIn(a, order[1..])), SlotTally(b, s),
              TallyAll(ItemsIn(b, order[1..])), SlotTally(a, s));
    }
  }

  lemma EverySlotOnce(s: InventorySlot)
    ensures Once(ALL_SLOTS, s)
  {
    match s
    case BothHands => assert ALL_SLOTS[0] == s;
    case Head => assert ALL_SLOTS[1] == s;
    case Amulet => assert ALL_SLOTS[2] == s;
    case Backpack => assert ALL_SLOTS[3] == s;
    case Chest => assert ALL_SLOTS[4] == s;
    case RightHand => assert ALL_SLOTS[5] == s;
    case LeftHand => assert ALL_SLOTS[6] == s;
    case Legs => assert ALL_SLOTS[7] == s;
    case Feet => assert ALL_SLOTS[8] == s;
    case Ring => assert ALL_SLOTS[9] == s;
    case Trinket => assert ALL_SLOTS[10] == s;
  }

  // The tallies of two inventories that differ in one slot differ by that slot.
  lemma SlotChange(a: Slots, b: Slots, s: InventorySlot)
    requires SameExcept(a, b, s)
    ensures HeldTally(a) + SlotTally(b, s) == HeldTally(b) + SlotTally(a, s)
  {
    EverySlotOnce(s);
    OneSlotChanges(a, b, s, ALL_SLOTS);
  }

  // The weight of everything carried, summed from scratch.
  function TotalCarried(slots: Slots): nat { WeightOfAll(Held(slots)) }

  lemma CarriedIsTallied(slots: Slots)
    ensures TotalCarried(slots) == HeldTally(slots)[Weight]
  {
    WeightsAreTallied(Held(slots));
  }

  lemma CarriedChange(a: Slots, b: Slots, s: InventorySlot)
    requires SameExcept(a, b, s)
    ensures TotalCarried(a) + SlotTally(b, s)[Weight] == TotalCarried(b) + SlotTally(a, s)[Weight]
  {
    SlotChange(a, b, s);
    CarriedIsTallied(a);
    CarriedIsTallied(b);
    assert (HeldTally(a) + SlotTally(b, s))[Weight] == (HeldTally(b) + SlotTally(a, s))[Weight];
  }

  // ---------------------------------------------------------------- equipment statistics

  datatype EquipmentStats = EquipmentStats(defense: int, armor: int, speed: int)

  function ArmorOf(items: seq<Item>): int {
    if items == [] then 0
    else (if items[0].config.armor.Some? then items[0].config.armor.value else 0) + ArmorOf(items[1..])
  }

  function SpeedOf(items: seq<Item>): int {
    if items == [] then 0
    else (if items[0].config.speed.Some? then items[0].config.speed.value else 0) + SpeedOf(items[1..])
  }

  // The shield's defense, or with no shield the weapon's, and the weapon's bonus either way.
  function DefenseOf(slots: Slots): int {
    var bonus := if LeftHand in slots && slots[LeftHand].config.extraDefense.Some?
                 then slots[LeftHand].config.extraDefense.value else 0;
    var hand := if RightHand in slots then RightHand else LeftHand;
    if hand !in slots then 0
    else Max((if slots[hand].config.defense.Some? then slots[hand].config.defense.value else 0) + bonus, 0)
  }

  function StatsOf(slots: Slots): EquipmentStats {
    EquipmentStats(DefenseOf(slots), ArmorOf(Held(slots)), SpeedOf(Held(slots)))
  }

  // Statistics look at the slot items' configurations only.
  lemma {:induction false} SameConfigsSameSums(a: Slots, b: Slots, order: seq<InventorySlot>)
    requires a.Keys == b.Keys && forall t :: t in a ==> a[t].config == b[t].config
    ensures ArmorOf(ItemsIn(a, order)) == ArmorOf(ItemsIn(b, order))
    ensures SpeedOf(ItemsIn(a, order)) == SpeedOf(ItemsIn(b, order))
  {
    if order != [] {
      SameConfigsSameSums(a, b, order[1..]);
      var s := order[0];
      if s in a {
        assert ([a[s]] + ItemsIn(a, order[1..]))[1..] == ItemsIn(a, order[1..]);
        assert ([b[s]] + ItemsIn(b, order[1..]))[1..] == ItemsIn(b, order[1..]);
      } else {
        assert [] + ItemsIn(a, order[1..]) == ItemsIn(a, order[1..]);
        assert [] + ItemsIn(b, order[1..]) == ItemsIn(b, order[1..]);
      }
    }
  }

  lemma SameConfigsSameStats(slots: Slots, s: InventorySlot, it: Item)
    requires s in slots && slots[s].config == it.config
    ensures StatsOf(slots[s := it]) == StatsOf(slots)
  {
    SameConfigsSameSums(slots, slots[s := it], ALL_SLOTS);
  }

  lemma {:induction false} OneMoreInTheSums(slots: Slots, s: InventorySlot, x: Item, order: seq<InventorySlot>)
    requires s !in slots && (forall i, j :: 0 <= i < j < |order| ==> order[i] != order[j])
    ensures ArmorOf(ItemsIn(slots[s := x], order)) - ArmorOf(ItemsIn(slots, order))
            == if s in order && x.config.armor.Some? then x.config.armor.value else 0
    ensures SpeedOf(ItemsIn(slots[s := x], order)) - SpeedOf(ItemsIn(slots, order))
            == if s in order && x.config.speed.Some? then x.config.speed.value else 0
  {
    if order != [] {
      OneMoreInTheSums(slots, s, x, order[1..]);
      var (t, a, b) := (order[0], ItemsIn(slots, order[1..]), ItemsIn(slots[s := x], order[1..]));
      if t == s {
        assert [] + a == a;
        FirstOfTheSums(x, b);
      } else if t in slots {
        FirstOfTheSums(slots[t], a);
        FirstOfTheSums(slots[t], b);
      } else {
        assert [] + a == a && [] + b == b;
      }
    }
  }

  lemma FirstOfTheSums(x: Item, rest: seq<Item>)
    ensures ArmorOf([x] + rest) == (if x.config.armor.Some? then x.config.armor.value else 0) + ArmorOf(rest)
    ensures SpeedOf([x] + rest) == (if x.config.speed.Some? then x.config.speed.value else 0) + SpeedOf(rest)
  {
    assert ([x] + rest)[1..] == rest;
  }

  // Each worn item adds its armor and its speed; nothing worn gives none.
  lemma WearingAddsUp(slots: Slots, s: InventorySlot, x: Item)
    requires s !in slots
    ensures StatsOf(slots[s := x]).armor
            == StatsOf(slots).armor + if x.config.armor.Some? then x.config.armor.value else 0
    ensures StatsOf(slots[s := x]).speed
            == StatsOf(slots).speed + if x.config.speed.Some? then x.config.speed.value else 0
    ensures StatsOf(map[]) == EquipmentStats(0, 0, 0)
  {
    EverySlotOnce(s);
    OneMoreInTheSums(slots, s, x, ALL_SLOTS);
    NothingWorn(ALL_SLOTS);
  }

  lemma {:induction false} NothingWorn(order: seq<InventorySlot>)
    ensures ItemsIn(map[], order) == []
  {
    if order != [] { NothingWorn(order[1..]); }
  }

  // Defense is that of the shield, whatever the weapon's is, or with no shield the weapon's,
  // and the weapon's bonus either way; it is never negative, and none with empty hands.
  lemma DefenseComesFromTheHands(slots: Slots)
    ensures var (armed, shielded) := (LeftHand in slots, RightHand in slots);
            var bonus := if armed && slots[LeftHand].config.extraDefense.Some?
                         then slots[LeftHand].config.extraDefense.value else 0;
            && (!armed && !shielded ==> StatsOf(slots).defense == 0)
            && (shielded ==> var d := slots[RightHand].config.defense;
                  StatsOf(slots).defense == Max(0, (if d.Some? then d.value as int else 0) + bonus))
            && (armed && !shielded ==> var d := slots[LeftHand].config.defense;
                  StatsOf(slots).defense == Max(0, (if d.Some? then d.value as int else 0) + bonus))
  {
  }

  // ---------------------------------------------------------------- the inventory

  ghost function Displaced(slots: Slots, s: InventorySlot): Option<Item> {
    if s in slots then Some(slots[s]) else None
  }

  // The slots with one of them holding what `items`, at most one item, holds.
  function WithSlot(slots: Slots, s: InventorySlot, items: seq<Item>): Slots {
    if items == [] then slots - {s} else slots[s := items[0]]
  }

  // Whether a container in the slot's tree takes one more item, and why not.
  function PutOutcome(slots: Slots, s: InventorySlot, target: Guid): (r: Result<(), MovementError>)
    ensures r.Ok? <==> s in slots && HasRoom(FindByGuid(slots[s], target))
  {
    if s !in slots then Err(ItemNotInPosition)
    else
      var c := FindByGuid(slots[s], target);
      if c.None? || c.value.Solid? then Err(ItemNotInPosition)
      else if |c.value.inside| >= Capacity(c.value) then Err(MovementError.ContainerIsFull)
      else Ok(())
  }

  // The slots once that container holds `x` as well.
  function Packed(slots: Slots, s: InventorySlot, target: Guid, at: nat, x: Item): Slots
    requires PutOutcome(slots, s, target).Ok? && Fits(slots[s], target, at)
  {
    slots[s := PutOne(slots[s], target, at, x)]
  }

  // The merge into a slot's tree; none when no unit would move.
  function MergeAt(slots: Slots, s: InventorySlot, container: Option<Guid>, item: Item): (r: Option<Merged>)
    ensures r.Some? ==> s in slots && |r.value.items| == 1
  {
    if s !in slots then None
    else
      var m := MergeInto([slots[s]], container, item);
      if m.Some? && m.value.moved > 0 then m else None
  }

  // An inventory at rest: its caches say what its slots say.
  datatype Contents = Contents(slots: Slots, carriedWeight: nat, stats: EquipmentStats)

  ghost predicate Sound(c: Contents) {
    c.carriedWeight == TotalCarried(c.slots) && c.stats == StatsOf(c.slots)
  }

  type Carried = c: Contents | Sound(c) witness Contents(map[], 0, EquipmentStats(0, 0, 0))

  function Resting(slots: Slots): Carried { Contents(slots, TotalCarried(slots), StatsOf(slots)) }

  class Inventory {
    var slots: Slots
    var carriedWeight: nat
    var stats: EquipmentStats

    // The caches say what the slots say.
    ghost predicate Valid()
      reads this
    {
      && carriedWeight == TotalCarried(slots)
      && stats == StatsOf(slots)
    }

    constructor FromSnapshot(slots: Slots)
      ensures Valid() && this.slots == slots
    {
      this.slots := slots;
      carriedWeight := TotalCarried(slots);
      stats := StatsOf(slots);
    }

    // Players share inventories copy-on-write: writing to one starts from a copy.
    constructor Copy(c: Carried)
      ensures Valid() && AtRest() == c
    {
      slots, carriedWeight, stats := c.slots, c.carriedWeight, c.stats;
    }

    function AtRest(): (c: Carried)
      requires Valid()
      reads this
      ensures c.slots == slots
    {
      Contents(slots, carriedWeight, stats)
    }

    method UpdateEquipmentStats()
      modifies this`stats
      ensures stats == StatsOf(slots)
    {
      stats := StatsOf(slots);
    }

    // Directly into the slot, handing back what was there.
    method InsertInSlot(slot: InventorySlot, item: Item) returns (displaced: Option<Item>)
      requires Valid()
      modifies this
      ensures Valid() && slots == old(slots)[slot := item]
      ensures displaced == Displaced(old(slots), slot)
      ensures HeldTally(slots) + SlotTally(old(slots), slot) == HeldTally(old(slots)) + Tally(item)
    {
      SlotAssigned(slots, slot, item);
      displaced := if slot in slots then Some(slots[slot]) else None;
      slots := slots[slot := item];
      if displaced.Some? {
        carriedWeight := carriedWeight - TotalWeight(displaced.value);
      }
      carriedWeight := carriedWeight + TotalWeight(item);
      UpdateEquipmentStats();
    }

    // Into a container somewhere in the slot's tree. A refusal changes nothing.
    method InsertInContainer(slot: InventorySlot, target: Guid, at: nat, item: Item)
      returns (r: Result<(), MovementError>)
      requires Valid() && (slot in slots ==> Fits(slots[slot], target, at))
      modifies this
      ensures Valid()
      ensures r == PutOutcome(old(slots), slot, target)
      ensures r.Err? ==> slots == old(slots) && carriedWeight == old(carriedWeight)
      ensures r.Ok? ==>
                && slots == Packed(old(slots), slot, target, at, item)
                && HeldTally(slots) == HeldTally(old(slots)) + Tally(item)
    {
      if slot !in slots { return Err(ItemNotInPosition); }
      var c := FindByGuid(slots[slot], target);
      if c.None? || c.value.Solid? { return Err(ItemNotInPosition); }
      if |c.value.inside| >= Capacity(c.value) { return Err(MovementError.ContainerIsFull); }
      PutInSlot(slots, slot, target, at, item);
      carriedWeight := carriedWeight + TotalWeight(item);
      slots := Packed(slots, slot, target, at, item);
      return Ok(());
    }

    // Removes `amount` of an item of the slot's tree: a piece of a stack, the slot's whole
    // item, or something nested, whose parent and index it reports.
    method Remove(slot: InventorySlot, guid: Guid, amount: U8, newName: Guid)
      returns (r: Option<(Item, Option<(Guid, nat)>)>)
      requires Valid()
      modifies this
      ensures Valid()
      ensures r.None? ==> slots == old(slots)
      ensures r.Some? <==> slot in old(slots) && TakeFrom([old(slots)[slot]], guid, amount, newName).Some?
      ensures r.Some? ==>
                var t := TakeFrom([old(slots)[slot]], guid, amount, newName).value;
                && r.value == (t.removed, if t.parent.Some? then Some((t.parent.value, t.at)) else None)
                && slots == WithSlot(old(slots), slot, t.rest)
                && (Name(newName) !in HeldTally(old(slots)) ==>
                      HeldTally(slots) + Tally(t.removed) == HeldTally(old(slots)) + Minted(t.removed, newName))
    {
      if slot !in slots { return None; }
      var it := slots[slot];
      assert [it][1..] == [];
      var taken := TakeFrom([it], guid, amount, newName);
      if taken.None? { return None; }
      var t := taken.value;
      TakenFromSlotWeighs(slots, slot, guid, amount, newName);
      if Name(newName) !in HeldTally(slots) { TakenFromSlot(slots, slot, guid, amount, newName); }
      slots := WithSlot(slots, slot, t.rest);
      carriedWeight := carriedWeight - TotalWeight(t.removed);
      if t.rest == [] {
        UpdateEquipmentStats();
      }
      return Some((t.removed, if t.parent.Some? then Some((t.parent.value, t.at)) else None));
    }

    method TakeSlot(slot: InventorySlot) returns (item: Option<Item>)
      requires Valid()
      modifies this
      ensures Valid() && slots == old(slots) - {slot}
      ensures item == Displaced(old(slots), slot)
      ensures HeldTally(slots) + SlotTally(old(slots), slot) == HeldTally(old(slots))
    {
      SlotEmptied(slots, slot);
      if slot !in slots { return None; }
      item := Some(slots[slot]);
      slots := slots - {slot};
      carriedWeight := carriedWeight - TotalWeight(item.value);
      UpdateEquipmentStats();
    }

    // The backpack's first container with room.
    method FirstAvailableContainer() returns (g: Option<Guid>)
      ensures g == if Backpack in slots then FindAvailable(slots[Backpack]) else None
    {
      if Backpack !in slots { return None; }
      return FindAvailable(slots[Backpack]);
    }

    // Tops up a like stack in the slot, or in a container of its tree, and accounts for the
    // units moved.
    method MergeStack(slot: InventorySlot, container: Option<Guid>, item: Item) returns (left: Item, moved: bool)
      requires Valid() && (slot in slots ==> Agrees(slots[slot], item.config))
      modifies this
      ensures Valid()
      ensures moved <==> MergeAt(old(slots), slot, container, item).Some?
      ensures !moved ==> left == item && slots == old(slots)
      ensures moved ==>
                var m := MergeAt(old(slots), slot, container, item).value;
                left == m.item && slots == old(slots)[slot := m.items[0]]
    {
      left, moved := item, false;
      var merged := MergeAt(slots, slot, container, item);
      if merged.None? { return; }
      var m := merged.value;
      MergedAtSlot(slots, slot, container, item);
      slots := slots[slot := m.items[0]];
      carriedWeight := carriedWeight + StackWeight(item.config, m.moved);
      left, moved := m.item, true;
    }
  }

  // ---------------------------------------------------------------- how a change shows in the sums

  function SlotWeight(slots: Slots, s: InventorySlot): nat { if s in slots then TotalWeight(slots[s]) else 0 }

  lemma SlotWeightIsTallied(slots: Slots, s: InventorySlot)
    ensures SlotWeight(slots, s) == SlotTally(slots, s)[Weight]
  {
    if s in slots { WeightIsTallied(slots[s]); }
  }

  lemma SlotEmptied(slots: Slots, s: InventorySlot)
    ensures HeldTally(slots - {s}) + SlotTally(slots, s) == HeldTally(slots)
    ensures TotalCarried(slots - {s}) + SlotWeight(slots, s) == TotalCarried(slots)
    ensures s !in slots ==> slots - {s} == slots
  {
    if s in slots {
      SlotGoes(slots, s, Tally(slots[s]), multiset{});
      WeightIsTallied(slots[s]);
    } else {
      assert slots - {s} == slots;
    }
  }

  lemma SlotAssigned(slots: Slots, s: InventorySlot, x: Item)
    ensures HeldTally(slots[s := x]) + SlotTally(slots, s) == HeldTally(slots) + Tally(x)
    ensures TotalCarried(slots[s := x]) + SlotWeight(slots, s) == TotalCarried(slots) + TotalWeight(x)
    ensures SlotWeight(slots, s) <= TotalCarried(slots)
  {
    SlotChange(slots[s := x], slots, s);
    CarriedChange(slots[s := x], slots, s);
    SlotWeightIsTallied(slots, s);
    WeightIsTallied(x);
    SlotEmptied(slots, s);
  }

  lemma SlotIsPart(slots: Slots, s: InventorySlot)
    requires s in slots
    ensures Tally(slots[s]) <= HeldTally(slots)
  {
    SlotEmptied(slots, s);
  }

  // One slot's item becomes `x`: what the tree gained or lost, the inventory did.
  lemma SlotBecomes(slots: Slots, s: InventorySlot, x: Item, a: multiset<Token>, b: multiset<Token>)
    requires s in slots && Tally(x) + a == Tally(slots[s]) + b
    ensures HeldTally(slots[s := x]) + a == HeldTally(slots) + b
    ensures TotalCarried(slots[s := x]) + a[Weight] == TotalCarried(slots) + b[Weight]
  {
    SlotChange(slots[s := x], slots, s);
    CancelStep(HeldTally(slots[s := x]), Tally(slots[s]), HeldTally(slots), Tally(x), a, b);
    WeighBoth(slots[s := x], slots, a, b);
  }

  lemma PutInSlot(slots: Slots, s: InventorySlot, target: Guid, at: nat, x: Item)
    requires PutOutcome(slots, s, target).Ok? && Fits(slots[s], target, at)
    ensures var slots' := Packed(slots, s, target, at, x);
            && HeldTally(slots') == HeldTally(slots) + Tally(x)
            && TotalCarried(slots') == TotalCarried(slots) + TotalWeight(x)
            && StatsOf(slots') == StatsOf(slots)
  {
    var put := PutOne(slots[s], target, at, x);
    PutOneBalances(slots[s], target, at, x);
    SlotBecomes(slots, s, put, multiset{}, Tally(x));
    WeightIsTallied(x);
    PutKeepsTheOuter(slots[s], target, at, x);
    SameConfigsSameStats(slots, s, put);
  }

  lemma PutKeepsTheOuter(it: Item, target: Guid, at: nat, x: Item)
    requires HasRoom(FindByGuid(it, target)) && Fits(it, target, at)
    ensures PutOne(it, target, at, x).config == it.config
  {
    var c := FindByGuid(it, target).value;
    FoundIffNamed(it, target);
    ReplacedIsFound(it, target, c.(inside := Spliced(c.inside, at, x)));
  }

  lemma TakenFromSlotWeighs(slots: Slots, s: InventorySlot, g: Guid, amount: U8, newName: Guid)
    requires s in slots && TakeFrom([slots[s]], g, amount, newName).Some?
    ensures var t := TakeFrom([slots[s]], g, amount, newName).value;
            var slots' := WithSlot(slots, s, t.rest);
            && TotalCarried(slots') + TotalWeight(t.removed) == TotalCarried(slots)
            && (t.rest != [] ==> StatsOf(slots') == StatsOf(slots))
  {
    var t := TakeFrom([slots[s]], g, amount, newName).value;
    TakeWeighs([slots[s]], g, amount, newName);
    TakeKeepsTheOuter(slots[s], g, amount, newName);
    WeightOfOne(slots[s]);
    if t.rest == [] {
      SlotEmptied(slots, s);
    } else {
      WeightOfOne(t.rest[0]);
      SlotAssigned(slots, s, t.rest[0]);
      SameConfigsSameStats(slots, s, t.rest[0]);
    }
  }

  lemma WeightOfOne(x: Item)
    ensures WeightOfAll([x]) == TotalWeight(x)
  {
    assert [x][1..] == [];
  }

  lemma TakenFromSlot(slots: Slots, s: InventorySlot, g: Guid, amount: U8, newName: Guid)
    requires s in slots && Name(newName) !in HeldTally(slots)
    requires TakeFrom([slots[s]], g, amount, newName).Some?
    ensures var t := TakeFrom([slots[s]], g, amount, newName).value;
            var slots' := WithSlot(slots, s, t.rest);
            HeldTally(slots') + Tally(t.removed) == HeldTally(slots) + Minted(t.removed, newName)
  {
    var t := TakeFrom([slots[s]], g, amount, newName).value;
    SlotIsPart(slots, s);
    TakenFromOne(slots[s], g, amount, newName, HeldTally(slots));
    TakeKeepsTheOuter(slots[s], g, amount, newName);
    if t.rest == [] {
      SlotGoes(slots, s, Tally(t.removed), Minted(t.removed, newName));
    } else {
      SlotBecomes(slots, s, t.rest[0], Tally(t.removed), Minted(t.removed, newName));
    }
  }

  lemma SlotGoes(slots: Slots, s: InventorySlot, a: multiset<Token>, b: multiset<Token>)
    requires s in slots && a == Tally(slots[s]) + b
    ensures HeldTally(slots - {s}) + a == HeldTally(slots) + b
    ensures TotalCarried(slots - {s}) + a[Weight] == TotalCarried(slots) + b[Weight]
  {
    SlotChange(slots - {s}, slots, s);
    CancelStep(HeldTally(slots - {s}), Tally(slots[s]), HeldTally(slots), multiset{}, a, b);
    WeighBoth(slots - {s}, slots, a, b);
  }

  lemma TakenFromOne(it: Item, g: Guid, amount: U8, newName: Guid, all: multiset<Token>)
    requires Tally(it) <= all && Name(newName) !in all && TakeFrom([it], g, amount, newName).Some?
    ensures var t := TakeFrom([it], g, amount, newName).value;
            (if t.rest == [] then multiset{} else Tally(t.rest[0])) + Tally(t.removed)
            == Tally(it) + Minted(t.removed, newName)
  {
    var t := TakeFrom([it], g, amount, newName).value;
    TallyOne(it);
    TakeBalances([it], g, amount, newName);
    TakeKeepsTheOuter(it, g, amount, newName);
    if t.rest != [] { TallyOne(t.rest[0]); }
  }

  // From a list of one item at most that item goes; if it stays, it keeps its configuration.
  lemma TakeKeepsTheOuter(it: Item, g: Guid, amount: U8, newName: Guid)
    requires TakeFrom([it], g, amount, newName).Some?
    ensures var rest := TakeFrom([it], g, amount, newName).value.rest;
            rest == [] || (|rest| == 1 && rest == [rest[0]] && rest[0].config == it.config)
  {
    var items := [it];
    assert items[1..] == [];
    if it.guid == g {
      assert IndexOf(items, g) == Some(0);
      assert Without(items, 0) == [];
    } else {
      assert TakeFrom(items, g, amount, newName) == TakeDeep(items, g, amount, newName);
      assert TakeDeep(items[1..], g, amount, newName).None?;
      var (it', t) := TakeNested(it, g, amount, newName).value;
      assert [it'] + items[1..] == [it'];
    }
  }

  lemma MergedAtSlot(slots: Slots, s: InventorySlot, container: Option<Guid>, item: Item)
    requires MergeAt(slots, s, container, item).Some? && Agrees(slots[s], item.config)
    ensures var m := MergeAt(slots, s, container, item).value;
            var slots' := slots[s := m.items[0]];
            && HeldTally(slots') + Tally(m.item) == HeldTally(slots) + Tally(item)
            && TotalCarried(slots') == TotalCarried(slots) + StackWeight(item.config, m.moved)
            && StatsOf(slots') == StatsOf(slots)
  {
    var m := MergeAt(slots, s, container, item).value;
    MergedInOne(slots[s], container, item);
    MergeKeepsTheOuter(slots[s], container, item);
    MergedInSlot(slots, s, m.items[0], item, m.item, m.moved);
  }

  lemma MergedInSlot(slots: Slots, s: InventorySlot, x: Item, item: Item, left: Item, moved: U8)
    requires s in slots && x.config == slots[s].config
    requires moved <= item.amount && left == item.(amount := item.amount - moved)
    requires Tally(x) + Tally(left) == Tally(slots[s]) + Tally(item)
    ensures HeldTally(slots[s := x]) + Tally(left) == HeldTally(slots) + Tally(item)
    ensures TotalCarried(slots[s := x]) == TotalCarried(slots) + StackWeight(item.config, moved)
    ensures StatsOf(slots[s := x]) == StatsOf(slots)
  {
    SlotBecomes(slots, s, x, Tally(left), Tally(item));
    MergeWeighs(item, moved);
    SameConfigsSameStats(slots, s, x);
  }

  lemma WeighBoth(a: Slots, b: Slots, x: multiset<Token>, y: multiset<Token>)
    requires HeldTally(a) + x == HeldTally(b) + y
    ensures TotalCarried(a) + x[Weight] == TotalCarried(b) + y[Weight]
  {
    CarriedIsTallied(a);
    CarriedIsTallied(b);
    assert (HeldTally(a) + x)[Weight] == (HeldTally(b) + y)[Weight];
  }

  lemma MergedInOne(it: Item, container: Option<Guid>, item: Item)
    requires Agrees(it, item.config) && MergeInto([it], container, item).Some?
    ensures var m := MergeInto([it], container, item).value;
            Tally(m.items[0]) + Tally(m.item) == Tally(it) + Tally(item)
  {
    OneAgrees(it, item.config);
    MergeBalances([it], container, item);
    TallyOne(it);
    TallyOfSingleton(MergeInto([it], container, item).value.items);
  }

  lemma OneAgrees(it: Item, config: ItemConfig)
    requires Agrees(it, config)
    ensures AllAgree([it], config)
  {
    assert [it][1..] == [];
  }

  lemma TallyOfSingleton(items: seq<Item>)
    requires |items| == 1
    ensures TallyAll(items) == Tally(items[0])
  {
    assert items[1..] == [];
  }

  lemma MergeWeighs(item: Item, moved: U8)
    requires moved <= item.amount
    ensures Tally(item.(amount := item.amount - moved))[Weight] + StackWeight(item.config, moved) == Tally(item)[Weight]
  {
    var rest: int := item.amount - moved;
    WeightSplits(item.config, rest, moved);
  }

  lemma MergeKeepsTheOuter(it: Item, container: Option<Guid>, item: Item)
    requires MergeInto([it], container, item).Some?
    ensures MergeInto([it], container, item).value.items[0].config == it.config
  {
    assert [it][1..] == [];
    if container.Some? {
      assert FindIn([it][1..], container.value).None?;
      var c := FindIn([it], container.value).value;
      FoundIffNamed(it, container.value);
      ReplacedIsFound(it, container.value, c.(inside := MergeHere(c.inside, item).value.items));
    }
  }
}
