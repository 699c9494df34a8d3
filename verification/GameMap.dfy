/**
 The world: its tiles, its agents, and where each agent stands. Where an agent stands is
 recorded twice, in a position table and in the list of the tile.
 */
module GameMaps {
  import opened Wrappers
  import opened Positions
  import opened Items
  import opened Inventories
  import opened Chunks
  import Participation
  import Skills

  datatype AgentInner =
    | Player(inventory: Carried, capacity: nat, level: Option<Skills.SkillValue>)
    | Creature(experience: U32, respawnTicks: Option<nat>, origin: Position)

  datatype Agent = Agent(
    inner: AgentInner,
    life: U32,
    target: Option<AgentKey>,
    targetSeq: U32,
    participation: Participation.Table)

  type Tiles = map<Position, MapTile>

  type Agents = map<AgentKey, Agent>

  type Where = map<AgentKey, Position>

  // ---------------------------------------------------------------- the agent index

  ghost function Standing(places: Where, k: AgentKey, p: Position): nat {
    if k in places && places[k] == p then 1 else 0
  }

  // The position table and the tile lists name the same agents at the same places, each once.
  ghost predicate Coherent(tiles: Tiles, places: Where) {
    && (forall k :: k in places ==> places[k] in tiles)
    && (forall p, k :: p in tiles ==> TimesIn(tiles[p].agents, k) == Standing(places, k, p))
  }

  lemma {:induction false} TimesInAppend(a: seq<AgentKey>, b: seq<AgentKey>, k: AgentKey)
    ensures TimesIn(a + b, k) == TimesIn(a, k) + TimesIn(b, k)
  {
    if a == [] {
      assert a + b == b;
    } else {
      assert (a + b)[1..] == a[1..] + b;
      TimesInAppend(a[1..], b, k);
    }
  }

  lemma {:induction false} TimesInAbsent(a: seq<AgentKey>, k: AgentKey)
    ensures TimesIn(a, k) == 0 <==> k !in a
  {
    if a != [] { TimesInAbsent(a[1..], k); }
  }

  // Unlisting: the first occurrence goes.
  function Unlisted(agents: seq<AgentKey>, k: AgentKey): seq<AgentKey> {
    if agents == [] then []
    else if agents[0] == k then agents[1..]
    else [agents[0]] + Unlisted(agents[1..], k)
  }

  lemma {:induction false} UnlistedTimes(agents: seq<AgentKey>, k: AgentKey, j: AgentKey)
    ensures TimesIn(Unlisted(agents, k), j)
            == if j == k && k in agents then TimesIn(agents, j) - 1 else TimesIn(agents, j)
  {
    if agents != [] && agents[0] != k {
      UnlistedTimes(agents[1..], k, j);
      assert ([agents[0]] + Unlisted(agents[1..], k))[1..] == Unlisted(agents[1..], k);
    }
  }

  function Unseat(tiles: Tiles, p: Position, k: AgentKey): Tiles
    requires p in tiles
  {
    tiles[p := tiles[p].(agents := Unlisted(tiles[p].agents, k))]
  }

  function Seat(tiles: Tiles, p: Position, k: AgentKey): Tiles
    requires p in tiles
  {
    tiles[p := tiles[p].(agents := tiles[p].agents + [k])]
  }

  lemma UnseatTimes(tiles: Tiles, p: Position, k: AgentKey, q: Position, j: AgentKey)
    requires p in tiles && q in tiles
    ensures TimesIn(Unseat(tiles, p, k)[q].agents, j)
            == TimesIn(tiles[q].agents, j) - (if q == p && j == k && TimesIn(tiles[p].agents, k) > 0 then 1 else 0)
  {
    UnlistedTimes(tiles[p].agents, k, j);
    TimesInAbsent(tiles[p].agents, k);
  }

  lemma SeatTimes(tiles: Tiles, p: Position, k: AgentKey, q: Position, j: AgentKey)
    requires p in tiles && q in tiles
    ensures TimesIn(Seat(tiles, p, k)[q].agents, j)
            == TimesIn(tiles[q].agents, j) + (if q == p && j == k then 1 else 0)
  {
    TimesInAppend(tiles[p].agents, [k], j);
  }

  lemma SeatKeepsCoherent(tiles: Tiles, places: Where, k: AgentKey, p: Position)
    requires Coherent(tiles, places) && k !in places && p in tiles
    ensures Coherent(Seat(tiles, p, k), places[k := p])
  {
    forall q, j | q in tiles
      ensures TimesIn(Seat(tiles, p, k)[q].agents, j) == Standing(places[k := p], j, q)
    {
      SeatTimes(tiles, p, k, q, j);
      assert TimesIn(tiles[q].agents, j) == Standing(places, j, q);
    }
  }

  lemma UnseatKeepsCoherent(tiles: Tiles, places: Where, k: AgentKey)
    requires Coherent(tiles, places) && k in places
    ensures Coherent(Unseat(tiles, places[k], k), places - {k})
  {
    forall q, j | q in tiles
      ensures TimesIn(Unseat(tiles, places[k], k)[q].agents, j) == Standing(places - {k}, j, q)
    {
      UnseatTimes(tiles, places[k], k, q, j);
      assert TimesIn(tiles[q].agents, j) == Standing(places, j, q);
    }
  }

  lemma MoveKeepsCoherent(tiles: Tiles, places: Where, k: AgentKey, p: Position)
    requires Coherent(tiles, places) && k in places && p in tiles
    ensures Coherent(Seat(Unseat(tiles, places[k], k), p, k), places[k := p])
  {
    UnseatKeepsCoherent(tiles, places, k);
    SeatKeepsCoherent(Unseat(tiles, places[k], k), places - {k}, k, p);
    assert (places - {k})[k := p] == places[k := p];
  }

  // An agent taken off its tile but left in the table: what a failed move leaves behind.
  lemma UnseatAloneIsIncoherent(tiles: Tiles, places: Where, k: AgentKey)
    requires Coherent(tiles, places) && k in places
    ensures !Coherent(Unseat(tiles, places[k], k), places)
  {
    var p := places[k];
    UnseatTimes(tiles, p, k, p, k);
    assert TimesIn(tiles[p].agents, k) == Standing(places, k, p) == 1;
    assert TimesIn(Unseat(tiles, p, k)[p].agents, k) != Standing(places, k, p);
  }

  // Changing what lies on a tile seats nobody elsewhere; a new empty tile seats nobody.
  lemma SameAgentsStayCoherent(tiles: Tiles, places: Where, p: Position, tile: MapTile)
    requires Coherent(tiles, places)
    requires if p in tiles then tile.agents == tiles[p].agents else tile.agents == []
    ensures Coherent(tiles[p := tile], places)
  {
    forall q, k | q in tiles[p := tile] ensures TimesIn(tiles[p := tile][q].agents, k) == Standing(places, k, q) {
      if q in tiles { assert TimesIn(tiles[q].agents, k) == Standing(places, k, q); }
    }
  }

  // ---------------------------------------------------------------- the map

  class GameMap {
    var chunks: ChunkMap
    var agents: Agents
    var places: Where
    // Slot-map keys carry a version, so no key is ever handed out again.
    var nextKey: nat
    // The flat map the chunks stand for.
    ghost var tiles: Tiles

    ghost predicate Valid()
      reads this
    {
      && (forall p {:trigger TileAt(chunks, p)} :: TileAt(chunks, p) == if p in tiles then Some(tiles[p]) else None)
      && (forall k :: k in agents || k in places ==> k.id < nextKey)
    }

    ghost predicate Indexed()
      reads this
    {
      agents.Keys == places.Keys && Coherent(tiles, places)
    }

    constructor ()
      ensures Valid() && Indexed() && tiles == map[] && agents == map[]
    {
      chunks, agents, places, nextKey := map[], map[], map[], 0;
      tiles := map[];
    }

    // Storing a tile through the chunk index is storing it in the flat map.
    method StoreTile(p: Position, tile: MapTile)
      requires Valid()
      modifies this`chunks, this`tiles
      ensures Valid() && tiles == old(tiles)[p := tile]
    {
      var before := chunks;
      chunks := WithTile(chunks, p, tile);
      tiles := tiles[p := tile];
      forall q ensures TileAt(chunks, q) == if q in tiles then Some(tiles[q]) else None {
        TileStored(before, p, tile, q);
      }
    }

    method InsertTile(p: Position, tile: MapTile)
      requires Valid()
      modifies this`chunks, this`tiles
      ensures Valid() && tiles == old(tiles)[p := tile]
      ensures old(Indexed()) && tile.agents == (if p in old(tiles) then old(tiles)[p].agents else []) ==> Indexed()
    {
      if Coherent(tiles, places) && tile.agents == (if p in tiles then tiles[p].agents else []) {
        SameAgentsStayCoherent(tiles, places, p, tile);
      }
      StoreTile(p, tile);
    }

    method GetTile(p: Position) returns (t: Option<MapTile>)
      requires Valid()
      ensures t == if p in tiles then Some(tiles[p]) else None
    {
      t := TileAt(chunks, p);
    }

    // ------------------------------------------------------------ agents

    method InsertAgent(agent: Agent, p: Position) returns (r: Result<AgentKey, MapError>)
      requires Valid() && Indexed()
      modifies this
      ensures Valid() && Indexed()
      ensures r.Ok? <==> p in old(tiles)
      ensures r.Err? ==> tiles == old(tiles) && agents == old(agents) && places == old(places)
      ensures r.Ok? ==>
                && r.value !in old(agents)
                && agents == old(agents)[r.value := agent] && places == old(places)[r.value := p]
                && tiles == Seat(old(tiles), p, r.value)
    {
      var t := GetTile(p);
      if t.None? { return Err(MapError.TileDoesNotExist); }
      var key := AgentKey(nextKey);
      SeatKeepsCoherent(tiles, places, key, p);
      nextKey := nextKey + 1;
      agents := agents[key := agent];
      StoreTile(p, t.value.(agents := t.value.agents + [key]));
      places := places[key := p];
      return Ok(key);
    }

    method RemoveAgent(key: AgentKey) returns (r: Option<(Agent, Position)>)
      requires Valid() && Indexed()
      modifies this
      ensures Valid() && Indexed()
      ensures r == if key in old(agents) then Some((old(agents)[key], old(places)[key])) else None
      ensures agents == old(agents) - {key} && places == old(places) - {key}
      ensures tiles == if key in old(places) then Unseat(old(tiles), old(places)[key], key) else old(tiles)
    {
      if key !in places {
        assert agents - {key} == agents && places - {key} == places;
        return None;
      }
      var p := places[key];
      UnseatKeepsCoherent(tiles, places, key);
      var t := GetTile(p);
      StoreTile(p, t.value.(agents := Unlisted(t.value.agents, key)));
      places := places - {key};
      r := Some((agents[key], p));
      agents := agents - {key};
    }

    // The agent leaves its tile before the destination is looked at, so moving to a place
    // that is no tile leaves it listed nowhere: the index survives exactly when the
    // destination exists (or there was no such agent).
    method MoveAgent(key: AgentKey, p: Position) returns (r: Result<(), MapError>)
      requires Valid() && Indexed()
      modifies this
      ensures Valid() && agents == old(agents)
      ensures r.Ok? <==> key in old(places) && p in old(tiles)
      ensures Indexed() <==> (key in old(places) ==> p in old(tiles))
      ensures r.Ok? ==>
                && places == old(places)[key := p]
                && tiles == Seat(Unseat(old(tiles), old(places)[key], key), p, key)
      ensures r.Err? ==> places == old(places)
    {
      if key !in places { return Err(EntityNotInPosition); }
      if p in tiles {
        MoveKeepsCoherent(tiles, places, key, p);
      } else {
        UnseatAloneIsIncoherent(tiles, places, key);
      }
      LeaveTile(key);
      var to := GetTile(p);
      if to.None? { return Err(MapError.TileDoesNotExist); }
      StoreTile(p, to.value.(agents := to.value.agents + [key]));
      places := places[key := p];
      return Ok(());
    }

    method LeaveTile(key: AgentKey)
      requires Valid() && key in places && places[key] in tiles
      modifies this`chunks, this`tiles
      ensures Valid() && tiles == Unseat(old(tiles), places[key], key)
    {
      var t := GetTile(places[key]);
      StoreTile(places[key], t.value.(agents := Unlisted(t.value.agents, key)));
    }

    // Writing through a mutable reference to an agent.
    method SetAgent(key: AgentKey, agent: Agent)
      requires Valid() && Indexed() && key in agents
      modifies this`agents
      ensures Valid() && Indexed() && agents == old(agents)[key := agent]
    {
      agents := agents[key := agent];
    }

    // The agents of a rectangle are those whose recorded position is in it, each once.
    lemma AgentsInRectAreThoseStandingThere(r: Rect, z: U8, k: AgentKey, p: Position)
      requires Valid() && Indexed()
      ensures TimesSeen(AgentsInRect(chunks, r, z), k, p)
              == if r.Contains(p) && p.z == z && k in places && places[k] == p then 1 else 0
    {
      AgentsInRectAreTheSeated(chunks, r, z, k, p);
      if p in tiles { assert TimesIn(tiles[p].agents, k) == Standing(places, k, p); }
    }

    // ------------------------------------------------------------ items

    // Takes `amount` of an item of the tile: directly on it, with its index, or nested, with
    // its parent.
    method RemoveItemFromTile(p: Position, guid: Guid, amount: U8, newName: Guid)
      returns (r: Option<(Item, Option<nat>, Option<(Guid, nat)>)>)
      requires Valid() && Indexed()
      modifies this`chunks, this`tiles
      ensures Valid() && Indexed()
      ensures r.None? ==> tiles == old(tiles)
      ensures r.Some? <==> p in old(tiles) && TakeFrom(old(tiles)[p].items, guid, amount, newName).Some?
      ensures r.Some? ==>
                var t := TakeFrom(old(tiles)[p].items, guid, amount, newName).value;
                && tiles == old(tiles)[p := old(tiles)[p].(items := t.rest)]
                && r.value == (t.removed, if t.parent.None? then Some(t.at) else None,
                               if t.parent.Some? then Some((t.parent.value, t.at)) else None)
    {
      var tile := GetTile(p);
      if tile.None? { return None; }
      var taken := TakeFrom(tile.value.items, guid, amount, newName);
      if taken.None? { return None; }
      var t := taken.value;
      InsertTile(p, tile.value.(items := t.rest));
      return Some((t.removed, if t.parent.None? then Some(t.at) else None,
                   if t.parent.Some? then Some((t.parent.value, t.at)) else None));
    }

    // Onto the tile at an index, at the end when none is given.
    method PlaceOnTile(p: Position, index: Option<nat>, item: Item) returns (r: Result<(), MapError>)
      requires Valid() && Indexed()
      // the source panics on an index past the end
      requires p in tiles && index.Some? ==> index.value <= |tiles[p].items|
      modifies this`chunks, this`tiles
      ensures Valid() && Indexed()
      ensures r.Err? ==> p !in tiles && tiles == old(tiles)
      ensures r.Ok? ==>
                && p in old(tiles)
                && var items := old(tiles)[p].items;
                   tiles == old(tiles)[p := old(tiles)[p].(items :=
                     Spliced(items, if index.Some? then index.value else |items|, item))]
    {
      var tile := GetTile(p);
      if tile.None? { return Err(MapError.TileDoesNotExist); }
      var items := tile.value.items;
      InsertTile(p, tile.value.(items := Spliced(items, if index.Some? then index.value else |items|, item)));
      return Ok(());
    }

    // Into a container that is on the tile or inside something on it.
    method PlaceInContainer(p: Position, target: Guid, at: nat, item: Item) returns (r: Result<(), MapError>)
      requires Valid() && Indexed()
      requires p in tiles ==> AllFit(tiles[p].items, target, at)
      modifies this`chunks, this`tiles
      ensures Valid() && Indexed()
      ensures r.Err? ==> tiles == old(tiles)
      ensures r.Err? <==> p !in old(tiles) || PutIn(old(tiles)[p].items, target, at, item).Err?
      ensures p !in old(tiles) ==> r == Err(MapError.TileDoesNotExist)
      ensures r.Err? && p in old(tiles) ==> r.error == PutIn(old(tiles)[p].items, target, at, item).error
      ensures r.Ok? ==>
                tiles == old(tiles)[p := old(tiles)[p].(items := PutIn(old(tiles)[p].items, target, at, item).value)]
    {
      var tile := GetTile(p);
      if tile.None? { return Err(MapError.TileDoesNotExist); }
      var put := PutIn(tile.value.items, target, at, item);
      if put.Err? { return Err(put.error); }
      InsertTile(p, tile.value.(items := put.value));
      return Ok(());
    }
  }
}
