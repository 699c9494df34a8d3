/**
 Searching what a player carries, and resolving a placement to the item it names. A search
 answers with an item and a placement; here the two are proved to agree.
 */
module CarriedSearch {
  import opened Wrappers
  import opened Positions
  import opened Items
  import opened Inventories
  import opened Chunks
  import opened GameMaps
  import opened Scenes

  // ---------------------------------------------------------------- searching

  datatype Found = Found(item: Item, holder: Item, index: nat)

  // The first match anywhere below `c`, with the container holding it directly.
  function FindInContents(c: Item, id: U16): Option<Found>
    decreases c, 1, 0
  {
    if c.Holder? then FindFrom(c, 0, id) else None
  }

  function FindFrom(c: Item, i: nat, id: U16): Option<Found>
    requires c.Holder? && i <= |c.inside|
    decreases c, 0, |c.inside| - i
  {
    if i == |c.inside| then None
    else if c.inside[i].config.id == id then Some(Found(c.inside[i], c, i))
    else
      var below := FindInContents(c.inside[i], id);
      if below.Some? then below else FindFrom(c, i + 1, id)
  }

  // The slots in order, each item before what is inside it.
  function FindInSlots(slots: Slots, order: seq<InventorySlot>, id: U16, k: AgentKey): Option<(Item, ItemPlacement)> {
    if order == [] then None
    else
      var here := if order[0] in slots then FindInSlot(slots[order[0]], InInventory(order[0], k), id) else None;
      if here.Some? then here else FindInSlots(slots, order[1..], id, k)
  }

  function FindInSlot(it: Item, site: ItemPlacement, id: U16): Option<(Item, ItemPlacement)> {
    if it.config.id == id then Some((it, site))
    else match FindInContents(it, id)
      case None => None
      case Some(f) => Some((f.item, InContainer(f.holder.guid, site, f.index)))
  }

  function FindCarriedItem(agents: Agents, id: U16, k: AgentKey): Option<(Item, ItemPlacement)> {
    if IsPlayerOf(agents, k) then FindInSlots(BagOf(agents, k), ALL_SLOTS, id, k) else None
  }

  // ---------------------------------------------------------------- resolving

  function FindItem(chunks: ChunkMap, agents: Agents, p: ItemPlacement, g: Guid): Option<Item>
    decreases p, 1
  {
    match p
    case InContainer(_, _, _) =>
      var it := ItemAtPlacement(chunks, agents, p);
      if it.Some? && it.value.guid == g then it else None
    case OnMap(pos) => if TileAt(chunks, pos).Some? then FindIn(TileAt(chunks, pos).value.items, g) else None
    case InInventory(s, k) =>
      if IsPlayerOf(agents, k) && s in BagOf(agents, k) then FindByGuid(BagOf(agents, k)[s], g) else None
  }

  // A tile placement names a tile, not one of the items on it.
  function ItemAtPlacement(chunks: ChunkMap, agents: Agents, p: ItemPlacement): Option<Item>
    decreases p, 0
  {
    match p
    case OnMap(_) => None
    case InInventory(s, k) =>
      if IsPlayerOf(agents, k) && s in BagOf(agents, k) then Some(BagOf(agents, k)[s]) else None
    case InContainer(g, within, i) =>
      var c := FindItem(chunks, agents, within, g);
      if c.Some? && c.value.Holder? && i < |c.value.inside| then Some(c.value.inside[i]) else None
  }

  // ---------------------------------------------------------------- the order of a search

  ghost function FirstWith(items: seq<Item>, id: U16): (r: Option<Item>)
    ensures r.None? ==> forall x :: x in items ==> x.config.id != id
    ensures r.Some? ==> exists i :: 0 <= i < |items| && items[i] == r.value && r.value.config.id == id
                                    && forall j :: 0 <= j < i ==> items[j].config.id != id
  {
    if items == [] then None
    else if items[0].config.id == id then
      assert items[0] == items[0];
      Some(items[0])
    else
      var r := FirstWith(items[1..], id);
      if r.Some? then
        var i :| 0 <= i < |items| - 1 && items[1..][i] == r.value && r.value.config.id == id
                 && forall j :: 0 <= j < i ==> items[1..][j].config.id != id;
        assert items[i + 1] == r.value;
        assert forall j :: 0 < j < i + 1 ==> items[j] == items[1..][j - 1];
        r
      else r
  }

  lemma {:induction false} FirstOfBoth(a: seq<Item>, b: seq<Item>, id: U16)
    ensures FirstWith(a + b, id) == if FirstWith(a, id).Some? then FirstWith(a, id) else FirstWith(b, id)
  {
    if a == [] {
      assert a + b == b;
    } else {
      assert (a + b)[1..] == a[1..] + b;
      FirstOfBoth(a[1..], b, id);
    }
  }

  ghost function ItemOf(f: Option<Found>): Option<Item> { if f.Some? then Some(f.value.item) else None }

  lemma {:induction false} ContentsAreSearchedInOrder(c: Item, id: U16)
    ensures ItemOf(FindInContents(c, id)) == FirstWith(if c.Holder? then PreorderAll(c.inside) else [], id)
    decreases c, 1, 0
  {
    if c.Holder? {
      RestIsSearchedInOrder(c, 0, id);
      assert c.inside[0..] == c.inside;
    }
  }

  lemma {:induction false} RestIsSearchedInOrder(c: Item, i: nat, id: U16)
    requires c.Holder? && i <= |c.inside|
    ensures ItemOf(FindFrom(c, i, id)) == FirstWith(PreorderAll(c.inside[i..]), id)
    decreases c, 0, |c.inside| - i
  {
    if i < |c.inside| {
      var it := c.inside[i];
      assert c.inside[i..][0] == it && c.inside[i..][1..] == c.inside[i + 1..];
      FirstOfBoth(Preorder(it), PreorderAll(c.inside[i + 1..]), id);
      TreeIsSearchedInOrder(it, id);
      RestIsSearchedInOrder(c, i + 1, id);
    }
  }

  lemma {:induction false} TreeIsSearchedInOrder(it: Item, id: U16)
    ensures FirstWith(Preorder(it), id)
            == if it.config.id == id then Some(it) else ItemOf(FindInContents(it, id))
    decreases it, 2, 0
  {
    var below := if it.Holder? then PreorderAll(it.inside) else [];
    FirstOfBoth([it], below, id);
    assert [it][1..] == [];
    ContentsAreSearchedInOrder(it, id);
  }

  // What is found is the first match of the slots in order, searched depth first: nothing
  // is found exactly when nothing carried has the id.
  lemma {:induction false} SlotsAreSearchedInOrder(slots: Slots, order: seq<InventorySlot>, id: U16, k: AgentKey)
    ensures var r := FindInSlots(slots, order, id, k);
            (if r.Some? then Some(r.value.0) else None) == FirstWith(PreorderAll(ItemsIn(slots, order)), id)
  {
    if order != [] {
      var rest := ItemsIn(slots, order[1..]);
      SlotsAreSearchedInOrder(slots, order[1..], id, k);
      if order[0] in slots {
        var it := slots[order[0]];
        assert ItemsIn(slots, order)[1..] == rest;
        FirstOfBoth(Preorder(it), PreorderAll(rest), id);
        TreeIsSearchedInOrder(it, id);
      } else {
        assert ItemsIn(slots, order) == rest;
      }
    }
  }

  lemma FindsTheFirstCarried(agents: Agents, id: U16, k: AgentKey)
    requires IsPlayerOf(agents, k)
    ensures var r := FindCarriedItem(agents, id, k);
            (if r.Some? then Some(r.value.0) else None) == FirstWith(PreorderAll(Held(BagOf(agents, k))), id)
  {
    SlotsAreSearchedInOrder(BagOf(agents, k), ALL_SLOTS, id, k);
  }

  // ---------------------------------------------------------------- nothing is overlooked

  ghost function UnitsAmong(items: seq<Item>, id: U16): nat {
    if items == [] then 0 else (if items[0].config.id == id then items[0].amount else 0) + UnitsAmong(items[1..], id)
  }

  lemma {:induction false} UnitsOfBoth(a: seq<Item>, b: seq<Item>, id: U16)
    ensures UnitsAmong(a + b, id) == UnitsAmong(a, id) + UnitsAmong(b, id)
  {
    if a == [] {
      assert a + b == b;
    } else {
      assert (a + b)[1..] == a[1..] + b;
      UnitsOfBoth(a[1..], b, id);
    }
  }

  // The items in preorder are all the items there are: their units are the tally's.
  lemma {:induction false} PreorderIsComplete(it: Item, id: U16)
    ensures UnitsAmong(Preorder(it), id) == Tally(it)[Units(id)]
    decreases it, 0
  {
    if it.Holder? { PreorderAllIsComplete(it.inside, id); }
    var below := if it.Holder? then PreorderAll(it.inside) else [];
    UnitsOfBoth([it], below, id);
    assert UnitsAmong([it], id) == OwnTally(it)[Units(id)] by { assert [it][1..] == []; }
  }

  lemma {:induction false} PreorderAllIsComplete(items: seq<Item>, id: U16)
    ensures UnitsAmong(PreorderAll(items), id) == TallyAll(items)[Units(id)]
    decreases items
  {
    if items != [] {
      PreorderIsComplete(items[0], id);
      PreorderAllIsComplete(items[1..], id);
      UnitsOfBoth(Preorder(items[0]), PreorderAll(items[1..]), id);
    }
  }

  lemma {:induction false} NoMatchNoUnits(items: seq<Item>, id: U16)
    requires forall x :: x in items ==> x.config.id != id
    ensures UnitsAmong(items, id) == 0
  {
    if items != [] {
      assert items[0] in items;
      NoMatchNoUnits(items[1..], id);
    }
  }

  lemma {:induction false} AMatchCounts(items: seq<Item>, i: nat, id: U16)
    requires i < |items| && items[i].config.id == id
    ensures UnitsAmong(items, id) >= items[i].amount
  {
    if i > 0 { AMatchCounts(items[1..], i - 1, id); }
  }

  // A search that finds nothing leaves no unit of the id in the inventory, and what one
  // finds is there.
  lemma SearchOverlooksNothing(agents: Agents, id: U16, k: AgentKey)
    requires IsPlayerOf(agents, k)
    ensures var r := FindCarriedItem(agents, id, k);
            && (r.None? ==> HeldTally(BagOf(agents, k))[Units(id)] == 0)
            && (r.Some? ==> r.value.0.config.id == id && HeldTally(BagOf(agents, k))[Units(id)] >= r.value.0.amount)
  {
    var all := PreorderAll(Held(BagOf(agents, k)));
    FindsTheFirstCarried(agents, id, k);
    PreorderAllIsComplete(Held(BagOf(agents, k)), id);
    if FirstWith(all, id).None? {
      NoMatchNoUnits(all, id);
    } else {
      var x := FirstWith(all, id).value;
      var i :| 0 <= i < |all| && all[i] == x && x.config.id == id && forall j :: 0 <= j < i ==> all[j].config.id != id;
      AMatchCounts(all, i, id);
    }
  }

  // ---------------------------------------------------------------- the placement found

  // The holder reported is in the tree under its own name, with the item at the index.
  lemma {:induction false} HolderIsFound(c: Item, id: U16)
    requires Unique(Tally(c)) && FindInContents(c, id).Some?
    ensures var f := FindInContents(c, id).value;
            f.holder.Holder? && f.index < |f.holder.inside| && f.holder.inside[f.index] == f.item
            && FindByGuid(c, f.holder.guid) == Some(f.holder)
    decreases c, 1, 0
  {
    HolderIsFoundFrom(c, 0, id);
  }

  lemma {:induction false} HolderIsFoundFrom(c: Item, i: nat, id: U16)
    requires Unique(Tally(c)) && c.Holder? && i <= |c.inside| && FindFrom(c, i, id).Some?
    ensures var f := FindFrom(c, i, id).value;
            f.holder.Holder? && f.index < |f.holder.inside| && f.holder.inside[f.index] == f.item
            && FindByGuid(c, f.holder.guid) == Some(f.holder)
    decreases c, 0, |c.inside| - i
  {
    var it := c.inside[i];
    if it.config.id != id {
      var below := FindInContents(it, id);
      if below.None? {
        HolderIsFoundFrom(c, i + 1, id);
      } else {
        UniqueParts(OwnTally(c), InsideTally(c));
        TallyMember(c.inside, i);
        UniqueInside(TallyAll(c.inside), Tally(it));
        HolderIsFound(it, id);
        FoundDeeper(c, i, below.value.holder);
      }
    }
  }

  lemma UniqueInside(whole: multiset<Token>, part: multiset<Token>)
    requires Unique(whole) && part <= whole
    ensures Unique(part)
  {
    forall g ensures part[Name(g)] <= 1 { assert whole[Name(g)] <= 1; }
  }

  lemma FoundDeeper(c: Item, i: nat, x: Item)
    requires Unique(Tally(c)) && c.Holder? && i < |c.inside| && FindByGuid(c.inside[i], x.guid) == Some(x)
    ensures FindByGuid(c, x.guid) == Some(x)
  {
    UniqueParts(OwnTally(c), InsideTally(c));
    FoundIffNamed(c.inside[i], x.guid);
    TallyMember(c.inside, i);
    FoundInTheList(c.inside, i, x);
    assert Name(c.guid) in OwnTally(c);
  }

  lemma {:induction false} FoundInTheList(items: seq<Item>, i: nat, x: Item)
    requires Unique(TallyAll(items)) && i < |items| && FindByGuid(items[i], x.guid) == Some(x)
    ensures FindIn(items, x.guid) == Some(x)
  {
    if i > 0 {
      UniqueParts(Tally(items[0]), TallyAll(items[1..]));
      FoundIffNamed(items[0], x.guid);
      FoundIffNamed(items[i], x.guid);
      TallyMember(items[1..], i - 1);
      FoundInTheList(items[1..], i - 1, x);
    }
  }

  // With unique names, the placement a search reports resolves to the very item found.
  lemma FoundPlacementResolves(chunks: ChunkMap, agents: Agents, id: U16, k: AgentKey)
    requires IsPlayerOf(agents, k) && Unique(HeldTally(BagOf(agents, k)))
    ensures var r := FindCarriedItem(agents, id, k);
            r.Some? ==> ItemAtPlacement(chunks, agents, r.value.1) == Some(r.value.0)
                        && FindItem(chunks, agents, r.value.1, r.value.0.guid) == Some(r.value.0)
  {
    FoundInSlotsResolves(chunks, agents, ALL_SLOTS, id, k);
  }

  lemma {:induction false} FoundInSlotsResolves(chunks: ChunkMap, agents: Agents, order: seq<InventorySlot>,
                                                id: U16, k: AgentKey)
    requires IsPlayerOf(agents, k) && Unique(HeldTally(BagOf(agents, k)))
    ensures var r := FindInSlots(BagOf(agents, k), order, id, k);
            r.Some? ==> ItemAtPlacement(chunks, agents, r.value.1) == Some(r.value.0)
                        && FindItem(chunks, agents, r.value.1, r.value.0.guid) == Some(r.value.0)
  {
    if order != [] {
      FoundInSlotsResolves(chunks, agents, order[1..], id, k);
      if order[0] in BagOf(agents, k) { FoundInSlotResolves(chunks, agents, order[0], id, k); }
    }
  }

  lemma FoundInSlotResolves(chunks: ChunkMap, agents: Agents, s: InventorySlot, id: U16, k: AgentKey)
    requires IsPlayerOf(agents, k) && s in BagOf(agents, k) && Unique(HeldTally(BagOf(agents, k)))
    ensures var r := FindInSlot(BagOf(agents, k)[s], InInventory(s, k), id);
            r.Some? ==> ItemAtPlacement(chunks, agents, r.value.1) == Some(r.value.0)
                        && FindItem(chunks, agents, r.value.1, r.value.0.guid) == Some(r.value.0)
  {
    var it := BagOf(agents, k)[s];
    SlotIsPart(BagOf(agents, k), s);
    UniqueInside(HeldTally(BagOf(agents, k)), Tally(it));
    if it.config.id != id && FindInContents(it, id).Some? {
      HolderIsFound(it, id);
      var f := FindInContents(it, id).value;
      assert FindItem(chunks, agents, InInventory(s, k), f.holder.guid) == Some(f.holder);
    }
  }
}
