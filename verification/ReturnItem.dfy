/**
 Putting an item back where it came from: onto a like stack there when one has room, as an
 entry of its own otherwise, and at the player's feet when the place will not have it.
 */
module Returns {
  import opened Wrappers
  import opened Positions
  import opened Items
  import opened Inventories
  import opened GameMaps
  import opened Ledgers
  import opened Events
  import opened Scenes
  import opened Ticks
  import opened ItemMovement

  // ---------------------------------------------------------------- what merging keeps

  // The same tree but for the amounts.
  ghost predicate Alike(a: Item, b: Item)
    decreases a, 0
  {
    && a.guid == b.guid && a.config == b.config && (a.Holder? <==> b.Holder?)
    && (a.Holder? ==> AllAlike(a.inside, b.inside))
  }

  ghost predicate AllAlike(a: seq<Item>, b: seq<Item>)
    decreases a
  {
    |a| == |b| && (a != [] ==> Alike(a[0], b[0]) && AllAlike(a[1..], b[1..]))
  }

  lemma {:induction false} LikeItself(a: Item)
    ensures Alike(a, a)
    decreases a, 0
  {
    if a.Holder? { AllLikeThemselves(a.inside); }
  }

  lemma {:induction false} AllLikeThemselves(a: seq<Item>)
    ensures AllAlike(a, a)
    decreases a
  {
    if a != [] {
      LikeItself(a[0]);
      AllLikeThemselves(a[1..]);
    }
  }

  lemma {:induction false} OneAmountDiffers(items: seq<Item>, i: nat, x: Item)
    requires i < |items| && Alike(items[i], x)
    ensures AllAlike(items, items[i := x])
  {
    if i == 0 {
      AllLikeThemselves(items[1..]);
    } else {
      LikeItself(items[0]);
      OneAmountDiffers(items[1..], i - 1, x);
      assert items[i := x][1..] == items[1..][i - 1 := x];
    }
  }

  lemma {:induction false} ReplacedIsAlike(it: Item, g: Guid, x: Item)
    requires FindByGuid(it, g).Some? && Alike(FindByGuid(it, g).value, x)
    ensures Alike(it, Replace(it, g, x))
    decreases it, 0
  {
    if it.guid != g { ReplacedInIsAlike(it.inside, g, x); }
  }

  lemma {:induction false} ReplacedInIsAlike(items: seq<Item>, g: Guid, x: Item)
    requires FindIn(items, g).Some? && Alike(FindIn(items, g).value, x)
    ensures AllAlike(items, ReplaceIn(items, g, x))
    decreases items
  {
    if FindByGuid(items[0], g).Some? {
      ReplacedIsAlike(items[0], g, x);
      AllLikeThemselves(items[1..]);
    } else {
      LikeItself(items[0]);
      ReplacedInIsAlike(items[1..], g, x);
    }
  }

  lemma MergedIsAlike(items: seq<Item>, container: Option<Guid>, item: Item)
    requires MergeInto(items, container, item).Some?
    ensures AllAlike(items, MergeInto(items, container, item).value.items)
  {
    match container {
      case None => MergedHereIsAlike(items, item);
      case Some(g) =>
        var c := FindIn(items, g).value;
        MergedHereIsAlike(c.inside, item);
        ReplacedInIsAlike(items, g, c.(inside := MergeHere(c.inside, item).value.items));
    }
  }

  lemma MergedHereIsAlike(items: seq<Item>, item: Item)
    requires MergeHere(items, item).Some?
    ensures AllAlike(items, MergeHere(items, item).value.items)
  {
    var i := FindLike(items, item.config.id).value;
    LikeItself(items[i]);
    OneAmountDiffers(items, i, TopUp(items[i], item).0);
  }

  lemma {:induction false} AlikeAreFoundAlike(a: Item, b: Item, g: Guid)
    requires Alike(a, b)
    ensures FindByGuid(a, g).Some? <==> FindByGuid(b, g).Some?
    ensures FindByGuid(a, g).Some? ==> Alike(FindByGuid(a, g).value, FindByGuid(b, g).value)
    decreases a, 0
  {
    if a.Holder? { AllAlikeAreFoundAlike(a.inside, b.inside, g); }
  }

  lemma {:induction false} AllAlikeAreFoundAlike(a: seq<Item>, b: seq<Item>, g: Guid)
    requires AllAlike(a, b)
    ensures FindIn(a, g).Some? <==> FindIn(b, g).Some?
    ensures FindIn(a, g).Some? ==> Alike(FindIn(a, g).value, FindIn(b, g).value)
    decreases a
  {
    if a != [] {
      AlikeAreFoundAlike(a[0], b[0], g);
      AllAlikeAreFoundAlike(a[1..], b[1..], g);
    }
  }

  lemma {:induction false} AlikeFit(a: Item, b: Item, g: Guid, at: nat)
    requires Alike(a, b) && Fits(a, g, at)
    ensures Fits(b, g, at)
  {
    AlikeAreFoundAlike(a, b, g);
  }

  lemma {:induction false} AllAlikeFit(a: seq<Item>, b: seq<Item>, g: Guid, at: nat)
    requires AllAlike(a, b) && AllFit(a, g, at)
    ensures AllFit(b, g, at)
  {
    if a != [] {
      AlikeFit(a[0], b[0], g, at);
      AllAlikeFit(a[1..], b[1..], g, at);
    }
  }

  // No stack, however deep, over the cap.
  ghost predicate Capped(it: Item)
    decreases it, 0
  {
    it.amount <= MAX_STACK && (it.Holder? ==> AllCapped(it.inside))
  }

  ghost predicate AllCapped(items: seq<Item>)
    decreases items
  {
    items != [] ==> Capped(items[0]) && AllCapped(items[1..])
  }

  lemma {:induction false} OneCapped(items: seq<Item>, i: nat)
    requires AllCapped(items) && i < |items|
    ensures Capped(items[i])
    ensures forall x :: Capped(x) ==> AllCapped(items[i := x])
  {
    if i > 0 { OneCapped(items[1..], i - 1); }
    forall x | Capped(x) ensures AllCapped(items[i := x]) {
      if i == 0 {
        assert items[i := x][1..] == items[1..];
      } else {
        assert items[i := x][1..] == items[1..][i - 1 := x];
      }
    }
  }

  lemma {:induction false} FoundIsCapped(it: Item, g: Guid, x: Item)
    requires Capped(it) && FindByGuid(it, g).Some?
    ensures Capped(FindByGuid(it, g).value) && (Capped(x) ==> Capped(Replace(it, g, x)))
    decreases it, 0
  {
    if it.guid != g { FoundInIsCapped(it.inside, g, x); }
  }

  lemma {:induction false} FoundInIsCapped(items: seq<Item>, g: Guid, x: Item)
    requires AllCapped(items) && FindIn(items, g).Some?
    ensures Capped(FindIn(items, g).value) && (Capped(x) ==> AllCapped(ReplaceIn(items, g, x)))
    decreases items
  {
    if FindByGuid(items[0], g).Some? {
      FoundIsCapped(items[0], g, x);
    } else {
      FoundInIsCapped(items[1..], g, x);
    }
  }

  // Merging never pushes a stack past the cap.
  lemma MergingKeepsTheCap(items: seq<Item>, container: Option<Guid>, item: Item)
    requires AllCapped(items) && MergeInto(items, container, item).Some?
    ensures AllCapped(MergeInto(items, container, item).value.items)
  {
    match container {
      case None => MergingHereKeepsTheCap(items, item);
      case Some(g) =>
        var c := FindIn(items, g).value;
        FoundInIsCapped(items, g, c);
        MergingHereKeepsTheCap(c.inside, item);
        FoundInIsCapped(items, g, c.(inside := MergeHere(c.inside, item).value.items));
    }
  }

  lemma MergingHereKeepsTheCap(items: seq<Item>, item: Item)
    requires AllCapped(items) && MergeHere(items, item).Some?
    ensures AllCapped(MergeHere(items, item).value.items)
  {
    var i := FindLike(items, item.config.id).value;
    OneCapped(items, i);
    assert Capped(TopUp(items[i], item).0);
  }

  lemma {:induction false} PutInIsCapped(items: seq<Item>, target: Guid, at: nat, x: Item)
    requires AllFit(items, target, at) && AllCapped(items) && Capped(x) && PutIn(items, target, at, x).Ok?
    ensures AllCapped(PutIn(items, target, at, x).value)
  {
    var c := FindByGuid(items[0], target);
    if c.Some? && c.value.Holder? {
      PutOneIsCapped(items[0], target, at, x);
    } else {
      PutInIsCapped(items[1..], target, at, x);
    }
  }

  lemma PutOneIsCapped(it: Item, target: Guid, at: nat, x: Item)
    requires HasRoom(FindByGuid(it, target)) && Fits(it, target, at) && Capped(it) && Capped(x)
    ensures Capped(PutOne(it, target, at, x))
  {
    var c := FindByGuid(it, target).value;
    FoundIsCapped(it, target, c);
    SplicedIsCapped(c.inside, at, x);
    FoundIsCapped(it, target, c.(inside := Spliced(c.inside, at, x)));
  }

  lemma {:induction false} SplicedIsCapped(items: seq<Item>, at: nat, x: Item)
    requires at <= |items| && AllCapped(items) && Capped(x)
    ensures AllCapped(Spliced(items, at, x))
  {
    if at == 0 {
      assert Spliced(items, at, x)[1..] == items;
    } else {
      assert Spliced(items, at, x)[1..] == Spliced(items[1..], at - 1, x);
      SplicedIsCapped(items[1..], at - 1, x);
    }
  }

  // ---------------------------------------------------------------- merging

  function ContainerName(p: ItemPlacement): Option<Guid> { if p.InContainer? then Some(p.guid) else None }

  // The merge at a placement; none when no unit would move.
  ghost function Merging(sc: Scene, p: ItemPlacement, item: Item): Option<Merged> {
    match Site(p)
    case Tile(pos) => if pos in sc.tiles then MergeInList(sc.tiles[pos].items, ContainerName(p), item) else None
    case Slot(s, k) =>
      if IsPlayerOf(sc.agents, k) then MergeAt(BagOf(sc.agents, k), s, ContainerName(p), item) else None
  }

  function MergeInList(items: seq<Item>, container: Option<Guid>, item: Item): Option<Merged> {
    var m := MergeInto(items, container, item);
    if m.Some? && m.value.moved > 0 then m else None
  }

  ghost function AfterMerging(sc: Scene, p: ItemPlacement, item: Item): Scene {
    var m := Merging(sc, p, item);
    if m.None? then sc
    else match Site(p)
      case Tile(pos) => sc.(tiles := WithItems(sc.tiles, pos, m.value.items))
      case Slot(s, k) => WithSlots(sc, k, BagOf(sc.agents, k)[s := m.value.items[0]])
  }

  ghost function LeftAfterMerging(sc: Scene, p: ItemPlacement, item: Item): Item {
    if Merging(sc, p, item).Some? then Merging(sc, p, item).value.item else item
  }

  // All of the item went onto the stack.
  ghost predicate MergedAway(sc: Scene, p: ItemPlacement, item: Item) {
    Merging(sc, p, item).Some? && LeftAfterMerging(sc, p, item).amount == 0
  }

  // Whatever is at the placement with the item's id has the item's configuration.
  ghost predicate Catalogued(sc: Scene, p: ItemPlacement, config: ItemConfig) {
    match Site(p)
    case Tile(pos) => pos in sc.tiles ==> AllAgree(sc.tiles[pos].items, config)
    case Slot(s, k) =>
      IsPlayerOf(sc.agents, k) && s in BagOf(sc.agents, k) ==> Agrees(BagOf(sc.agents, k)[s], config)
  }

  method MergeOnTile(ctx: TickCtx, pos: Position, container: Option<Guid>, item: Item)
    returns (left: Item, moved: bool)
    requires ctx.Valid()
    modifies ctx.world`chunks, ctx.world`tiles
    ensures ctx.Valid()
    ensures moved <==> pos in old(ctx.world.tiles)
                       && MergeInList(old(ctx.world.tiles)[pos].items, container, item).Some?
    ensures !moved ==> left == item && ctx.world.tiles == old(ctx.world.tiles)
    ensures moved ==>
              var m := MergeInList(old(ctx.world.tiles)[pos].items, container, item).value;
              left == m.item && ctx.world.tiles == WithItems(old(ctx.world.tiles), pos, m.items)
  {
    left, moved := item, false;
    var tile := ctx.world.GetTile(pos);
    if tile.None? { return; }
    var merged := MergeInList(tile.value.items, container, item);
    if merged.None? { return; }
    ctx.world.InsertTile(pos, tile.value.(items := merged.value.items));
    left, moved := merged.value.item, true;
  }

  method MergeInBag(ctx: TickCtx, k: AgentKey, slot: InventorySlot, container: Option<Guid>, item: Item)
    returns (left: Item, moved: bool)
    requires ctx.Valid()
    requires ctx.IsPlayer(k) && slot in ctx.SlotsOf(k) ==> Agrees(ctx.SlotsOf(k)[slot], item.config)
    modifies ctx.world`agents
    ensures ctx.Valid()
    ensures moved <==> old(ctx.IsPlayer(k)) && MergeAt(old(ctx.SlotsOf(k)), slot, container, item).Some?
    ensures !moved ==> left == item && ctx.world.agents == old(ctx.world.agents)
    ensures moved ==>
              var m := MergeAt(old(ctx.SlotsOf(k)), slot, container, item).value;
              && left == m.item
              && ctx.world.agents == WithBag(old(ctx.world.agents), k, old(ctx.SlotsOf(k))[slot := m.items[0]])
  {
    if !ctx.IsPlayer(k) { return item, false; }
    var inventory := new Inventory.Copy(ctx.world.agents[k].inner.inventory);
    left, moved := inventory.MergeStack(slot, container, item);
    if moved { ctx.StoreBag(k, inventory.AtRest()); }
  }

  method MergeIntoLikeStack(ctx: TickCtx, p: ItemPlacement, item: Item) returns (left: Item, moved: bool)
    requires ctx.Valid() && Catalogued(ctx.Now(), p, item.config)
    modifies ctx.world`chunks, ctx.world`tiles, ctx.world`agents
    ensures ctx.Valid()
    ensures moved <==> Merging(old(ctx.Now()), p, item).Some?
    ensures left == LeftAfterMerging(old(ctx.Now()), p, item)
    ensures ctx.Now() == AfterMerging(old(ctx.Now()), p, item)
  {
    match Site(p) {
      case Tile(pos) => left, moved := MergeOnTile(ctx, pos, ContainerName(p), item);
      case Slot(s, k) => left, moved := MergeInBag(ctx, k, s, ContainerName(p), item);
    }
  }

  lemma MergingBalances(sc: Scene, p: ItemPlacement, item: Item)
    requires Catalogued(sc, p, item.config)
    ensures SceneTally(AfterMerging(sc, p, item)) + Tally(LeftAfterMerging(sc, p, item)) == SceneTally(sc) + Tally(item)
  {
    if Merging(sc, p, item).Some? {
      var m := Merging(sc, p, item).value;
      match Site(p) {
        case Tile(pos) =>
          MergeBalances(sc.tiles[pos].items, ContainerName(p), item);
          TileChange(sc.tiles, BagsOf(sc.agents), pos, AfterMerging(sc, p, item).tiles[pos], Tally(m.item),
                     Tally(item));
        case Slot(s, k) =>
          MergedAtSlot(BagOf(sc.agents, k), s, ContainerName(p), item);
          BagStored(sc.tiles, sc.agents, k, BagOf(sc.agents, k)[s := m.items[0]], Tally(m.item), Tally(item));
      }
    }
  }

  // What could be inserted at before can be inserted at after.
  lemma MergingKeepsInsertable(sc: Scene, p: ItemPlacement, item: Item)
    requires Insertable(sc, p)
    ensures Insertable(AfterMerging(sc, p, item), p)
  {
    if Merging(sc, p, item).Some? && p.InContainer? {
      var m := Merging(sc, p, item).value;
      match Site(p) {
        case Tile(pos) =>
          MergedIsAlike(sc.tiles[pos].items, ContainerName(p), item);
          AllAlikeFit(sc.tiles[pos].items, m.items, p.guid, p.index);
        case Slot(s, k) =>
          var it := BagOf(sc.agents, k)[s];
          MergedIsAlike([it], ContainerName(p), item);
          assert [it][0] == it;
          AlikeFit(it, m.items[0], p.guid, p.index);
          BagWritten(sc.agents, k, BagOf(sc.agents, k)[s := m.items[0]]);
      }
    }
  }

  lemma MergingKeepsTiles(sc: Scene, p: ItemPlacement, item: Item)
    ensures var t := AfterMerging(sc, p, item).tiles;
            t.Keys == sc.tiles.Keys && forall q :: q in t ==> |t[q].items| == |sc.tiles[q].items|
  {
  }

  // ---------------------------------------------------------------- returning

  // A merge never reaches an insertion, so it announces itself.
  method AnnounceMerge(ctx: TickCtx, p: ItemPlacement)
    modifies ctx`events
    ensures |ctx.events| == |old(ctx.events)| + 1 && ctx.events[..|old(ctx.events)|] == old(ctx.events)
    ensures KeyOf(ctx.events[|old(ctx.events)|])
            == Some(match (Site(p), Container(p))
                    case (_, Some((g, _))) => ContainerKey(g)
                    case (Tile(pos), None) => TileKey(pos)
                    case (Slot(s, k), None) => SlotKey(k, s))
  {
    var m;
    match (Site(p), Container(p)) {
      case (_, Some((g, _))) => m := ContainerUpdated(g, SitePlacement(p));
      case (Tile(pos), None) => m := TileChanged(pos);
      case (Slot(s, k), None) => m := UpdateInventorySlot(k, s);
    }
    ctx.events := ctx.events + [m];
  }

  // A bare slot that something is in already, or that nobody has.
  predicate SlotTaken(agents: Agents, p: ItemPlacement) {
    p.InInventory? && (!IsPlayerOf(agents, p.agent) || p.slot in BagOf(agents, p.agent))
  }

  // A new entry at the placement, or at the feet - or nowhere, when the player is gone.
  ghost function AfterPuttingBack(sc: Scene, p: ItemPlacement, index: Option<nat>, left: Item, feet: Option<Position>)
    : (bool, Scene)
  {
    if !SlotTaken(sc.agents, p) && Takes(sc, p, left) && IndexOk(sc, p, index) then (true, Inserted(sc, p, index, left))
    else if feet.Some? && feet.value in sc.tiles then
      (true, sc.(tiles := WithOneMore(sc.tiles, feet.value, None, left)))
    else (false, sc)
  }

  method PutBack(ctx: TickCtx, k: AgentKey, p: ItemPlacement, index: Option<nat>, item: Item)
    returns (r: Result<(), MovementError>)
    requires ctx.Valid() && Insertable(ctx.Now(), p) && IndexOk(ctx.Now(), p, index)
    modifies ctx`events, ctx.world`chunks, ctx.world`tiles, ctx.world`agents
    ensures ctx.Valid()
    ensures k in ctx.world.places ==> ctx.world.places[k] in old(ctx.world.tiles)
    ensures (r.Ok?, ctx.Now()) == AfterPuttingBack(old(ctx.Now()), p, index, item, FeetOf(ctx.world.places, k))
    ensures r.Err? ==> r.error == PlayerDespawned
  {
    assert k in ctx.world.places ==> ctx.world.places[k] in ctx.world.tiles;
    if !SlotTaken(ctx.world.agents, p) {
      r := InsertItemAt(ctx, item, p, index);
      if r.Ok? { return; }
    }
    if k !in ctx.world.places { return Err(PlayerDespawned); }
    r := ctx.Drop(ctx.world.places[k], None, item);
  }

  function FeetOf(places: Where, k: AgentKey): Option<Position> { if k in places then Some(places[k]) else None }

  // Merged as far as the stack takes it, and put back what is left.
  ghost function AfterReturning(sc: Scene, p: ItemPlacement, index: Option<nat>, item: Item, feet: Option<Position>)
    : (bool, Scene)
  {
    var merged := AfterMerging(sc, p, item);
    if MergedAway(sc, p, item) then (true, merged)
    else AfterPuttingBack(merged, p, index, LeftAfterMerging(sc, p, item), feet)
  }

  method Return(ctx: TickCtx, k: AgentKey, p: ItemPlacement, index: Option<nat>, item: Item)
    returns (r: Result<(), MovementError>)
    requires ctx.Valid() && Insertable(ctx.Now(), p) && IndexOk(ctx.Now(), p, index)
    requires Catalogued(ctx.Now(), p, item.config)
    modifies ctx`events, ctx.world`chunks, ctx.world`tiles, ctx.world`agents
    ensures ctx.Valid()
    ensures k in ctx.world.places ==> ctx.world.places[k] in old(ctx.world.tiles)
    ensures (r.Ok?, ctx.Now()) == AfterReturning(old(ctx.Now()), p, index, item, FeetOf(ctx.world.places, k))
  {
    ghost var before := ctx.Now();
    assert k in ctx.world.places ==> ctx.world.places[k] in before.tiles;
    MergingKeepsInsertable(before, p, item);
    MergingKeepsTiles(before, p, item);
    var left, moved := MergeIntoLikeStack(ctx, p, item);
    if moved { AnnounceMerge(ctx, p); }
    if moved && left.amount == 0 { return Ok(()); }
    r := PutBack(ctx, k, p, index, left);
  }

  method ReturnItem(ctx: TickCtx, k: AgentKey, p: ItemPlacement, index: Option<nat>, item: Item)
    returns (r: Result<(), MovementError>)
    requires ctx.Valid() && Insertable(ctx.Now(), p) && IndexOk(ctx.Now(), p, index)
    requires Catalogued(ctx.Now(), p, item.config)
    modifies ctx`events, ctx.world`chunks, ctx.world`tiles, ctx.world`agents
    ensures ctx.Valid()
    ensures (r.Ok?, ctx.Now()) == AfterReturning(old(ctx.Now()), p, index, item, FeetOf(ctx.world.places, k))
    ensures r.Err? ==> k !in ctx.world.places
    ensures SceneTally(ctx.Now()) + Missing(old(ctx.Now()), p, item, r.Ok?) == SceneTally(old(ctx.Now())) + Tally(item)
    ensures AllStacksCapped(old(ctx.Now())) && Capped(item) ==> AllStacksCapped(ctx.Now())
  {
    ghost var before, feet := ctx.Now(), FeetOf(ctx.world.places, k);
    r := Return(ctx, k, p, index, item);
    ReturnAddsTheItem(before, p, index, item, feet);
    if AllStacksCapped(before) && Capped(item) { ReturnKeepsTheCap(before, p, index, item, feet); }
  }

  // What of the item does not come back: where all its units were merged away, the emptied
  // item; where there is no player to return it to, what was not merged.
  ghost function Missing(sc: Scene, p: ItemPlacement, item: Item, ok: bool): multiset<Token> {
    if ok && !MergedAway(sc, p, item) then multiset{} else Tally(LeftAfterMerging(sc, p, item))
  }

  // Whatever way it takes, an item returned adds itself to the world, less the emptied item
  // when all of it was merged away - a name, unless the item was a container. It is not
  // returned only when the player is gone.
  lemma ReturnAddsTheItem(sc: Scene, p: ItemPlacement, index: Option<nat>, item: Item, feet: Option<Position>)
    requires Catalogued(sc, p, item.config) && (feet.Some? ==> feet.value in sc.tiles)
    ensures var (ok, after) := AfterReturning(sc, p, index, item, feet);
            && SceneTally(after) + Missing(sc, p, item, ok) == SceneTally(sc) + Tally(item)
            && (feet.Some? ==> ok)
            && (ok && item.Solid? && MergedAway(sc, p, item) ==> Missing(sc, p, item, ok) == multiset{Name(item.guid)})
  {
    var merged, left := AfterMerging(sc, p, item), LeftAfterMerging(sc, p, item);
    MergingBalances(sc, p, item);
    MergingKeepsTiles(sc, p, item);
    if MergedAway(sc, p, item) {
      if item.Solid? { NothingLeftButTheName(left); }
    } else {
      LeftoverBalances(merged, p, index, left, feet, SceneTally(sc), Tally(item));
    }
  }

  // What is left after merging is added, or missing.
  lemma LeftoverBalances(sc: Scene, p: ItemPlacement, index: Option<nat>, left: Item, feet: Option<Position>,
                         before: multiset<Token>, item: multiset<Token>)
    requires SceneTally(sc) + Tally(left) == before + item && (feet.Some? ==> feet.value in sc.tiles)
    ensures var (ok, after) := AfterPuttingBack(sc, p, index, left, feet);
            && SceneTally(after) + (if ok then multiset{} else Tally(left)) == before + item
            && (feet.Some? ==> ok)
  {
    var ok := AfterPuttingBack(sc, p, index, left, feet).0;
    PuttingBackBalances(sc, p, index, left, feet);
    GotAndMissing(before, SceneTally(sc), Tally(left), item, if ok then Tally(left) else multiset{},
                  if ok then multiset{} else Tally(left));
  }

  lemma GotAndMissing(before: multiset<Token>, between: multiset<Token>, left: multiset<Token>, item: multiset<Token>,
                      got: multiset<Token>, missing: multiset<Token>)
    requires between + left == before + item && left == got + missing
    ensures (between + got) + missing == before + item
  {
  }

  lemma NothingLeftButTheName(left: Item)
    requires left.Solid? && left.amount == 0
    ensures Tally(left) == multiset{Name(left.guid)}
  {
  }

  lemma PuttingBackBalances(sc: Scene, p: ItemPlacement, index: Option<nat>, left: Item, feet: Option<Position>)
    ensures var (ok, after) := AfterPuttingBack(sc, p, index, left, feet);
            SceneTally(after) == SceneTally(sc) + if ok then Tally(left) else multiset{}
  {
    if !SlotTaken(sc.agents, p) && Takes(sc, p, left) && IndexOk(sc, p, index) {
      InsertingBalances(sc, p, index, left);
    } else if feet.Some? && feet.value in sc.tiles {
      OneMoreBalances(sc.tiles, BagsOf(sc.agents), feet.value, None, left);
    }
  }

  // ---------------------------------------------------------------- the cap

  // No stack anywhere is over the cap.
  ghost predicate AllStacksCapped(sc: Scene) {
    && (forall pos :: pos in sc.tiles ==> AllCapped(sc.tiles[pos].items))
    && (forall k, s :: IsPlayerOf(sc.agents, k) && s in BagOf(sc.agents, k) ==> Capped(BagOf(sc.agents, k)[s]))
  }

  lemma TileStaysCapped(sc: Scene, pos: Position, items: seq<Item>)
    requires pos in sc.tiles && AllStacksCapped(sc) && AllCapped(items)
    ensures AllStacksCapped(sc.(tiles := WithItems(sc.tiles, pos, items)))
  {
  }

  lemma SlotStaysCapped(sc: Scene, k: AgentKey, s: InventorySlot, x: Item)
    requires IsPlayerOf(sc.agents, k) && AllStacksCapped(sc) && Capped(x)
    ensures AllStacksCapped(WithSlots(sc, k, BagOf(sc.agents, k)[s := x]))
  {
    var after := WithSlots(sc, k, BagOf(sc.agents, k)[s := x]);
    BagWritten(sc.agents, k, BagOf(sc.agents, k)[s := x]);
    forall j, r | IsPlayerOf(after.agents, j) && r in BagOf(after.agents, j) ensures Capped(BagOf(after.agents, j)[r]) {
      if j != k { assert IsPlayerOf(sc.agents, j) && r in BagOf(sc.agents, j); }
    }
  }

  lemma InsertedIsCapped(sc: Scene, p: ItemPlacement, index: Option<nat>, item: Item)
    requires Takes(sc, p, item) && IndexOk(sc, p, index) && AllStacksCapped(sc) && Capped(item)
    ensures AllStacksCapped(Inserted(sc, p, index, item))
  {
    match (Site(p), Container(p)) {
      case (Tile(pos), None) => LaidIsCapped(sc, pos, index, item);
      case (Tile(pos), Some((g, at))) =>
        PutInIsCapped(sc.tiles[pos].items, g, at, item);
        TileStaysCapped(sc, pos, PutIn(sc.tiles[pos].items, g, at, item).value);
      case (Slot(s, k), None) => SlotStaysCapped(sc, k, s, item);
      case (Slot(s, k), Some((g, at))) =>
        PutOneIsCapped(BagOf(sc.agents, k)[s], g, at, item);
        SlotStaysCapped(sc, k, s, PutOne(BagOf(sc.agents, k)[s], g, at, item));
    }
  }

  lemma LaidIsCapped(sc: Scene, pos: Position, index: Option<nat>, item: Item)
    requires pos in sc.tiles && (index.Some? ==> index.value <= |sc.tiles[pos].items|)
    requires AllStacksCapped(sc) && Capped(item)
    ensures AllStacksCapped(sc.(tiles := WithOneMore(sc.tiles, pos, index, item)))
  {
    var items := sc.tiles[pos].items;
    var at := if index.Some? then index.value else |items|;
    SplicedIsCapped(items, at, item);
    TileStaysCapped(sc, pos, Spliced(items, at, item));
  }

  lemma MergedIsCapped(sc: Scene, p: ItemPlacement, item: Item)
    requires AllStacksCapped(sc) && Capped(item)
    ensures AllStacksCapped(AfterMerging(sc, p, item)) && Capped(LeftAfterMerging(sc, p, item))
  {
    if Merging(sc, p, item).Some? {
      var m := Merging(sc, p, item).value;
      match Site(p) {
        case Tile(pos) =>
          MergingKeepsTheCap(sc.tiles[pos].items, ContainerName(p), item);
          TileStaysCapped(sc, pos, m.items);
        case Slot(s, k) =>
          var it := BagOf(sc.agents, k)[s];
          assert [it][1..] == [];
          MergingKeepsTheCap([it], ContainerName(p), item);
          SlotStaysCapped(sc, k, s, m.items[0]);
      }
    }
  }

  // Returning an item leaves no stack over the cap, on any tile or in any inventory.
  lemma ReturnKeepsTheCap(sc: Scene, p: ItemPlacement, index: Option<nat>, item: Item, feet: Option<Position>)
    requires AllStacksCapped(sc) && Capped(item)
    ensures AllStacksCapped(AfterReturning(sc, p, index, item, feet).1)
  {
    var merged, left := AfterMerging(sc, p, item), LeftAfterMerging(sc, p, item);
    MergedIsCapped(sc, p, item);
    if !SlotTaken(merged.agents, p) && Takes(merged, p, left) && IndexOk(merged, p, index) {
      InsertedIsCapped(merged, p, index, left);
    } else if feet.Some? && feet.value in merged.tiles {
      LaidIsCapped(merged, feet.value, None, left);
    }
  }
}
