/** What the whole world holds: the tallies of all tiles and of all inventories, added up. */
module Ledgers {
  import opened Positions
  import opened Items
  import opened Inventories
  import opened Chunks
  import opened GameMaps

  ghost function SumOver<K(!new)>(m: map<K, seq<Item>>): multiset<Token>
    decreases |m|
  {
    if m == map[] then multiset{}
    else
      var k :| k in m;
      TallyAll(m[k]) + SumOver(m - {k})
  }

  ghost function At<K(!new)>(m: map<K, seq<Item>>, k: K): multiset<Token> {
    if k in m then TallyAll(m[k]) else multiset{}
  }

  // Any entry can be counted first.
  lemma {:induction false} SumSplits<K(!new)>(m: map<K, seq<Item>>, k: K)
    ensures SumOver(m) == At(m, k) + SumOver(m - {k})
    decreases |m|
  {
    if k !in m {
      assert m - {k} == m;
    } else {
      var j :| j in m && SumOver(m) == TallyAll(m[j]) + SumOver(m - {j});
      if j != k {
        var rest := SumOver(m - {k} - {j});
        SumSplits(m - {j}, k);
        SumSplits(m - {k}, j);
        assert m - {j} - {k} == m - {k} - {j};
        Reorder(TallyAll(m[j]), TallyAll(m[k]), rest);
      }
    }
  }

  lemma Reorder(a: multiset<Token>, b: multiset<Token>, c: multiset<Token>)
    ensures a + (b + c) == b + (a + c)
  {
  }

  // What one entry gains or loses, the sum does.
  lemma EntryBecomes<K(!new)>(m: map<K, seq<Item>>, k: K, items: seq<Item>, a: multiset<Token>, b: multiset<Token>)
    requires k in m && TallyAll(items) + a == TallyAll(m[k]) + b
    ensures SumOver(m[k := items]) + a == SumOver(m) + b
  {
    var m' := m[k := items];
    SumSplits(m, k);
    SumSplits(m', k);
    assert m' - {k} == m - {k};
    Balance(SumOver(m - {k}), TallyAll(items), a, TallyAll(m[k]), b);
  }

  // ---------------------------------------------------------------- tiles and bags

  ghost function OnTiles(tiles: Tiles): map<Position, seq<Item>> { map p | p in tiles :: tiles[p].items }

  ghost function InBags(bags: map<AgentKey, Slots>): map<AgentKey, seq<Item>> { map k | k in bags :: Held(bags[k]) }

  ghost function WorldTally(tiles: Tiles, bags: map<AgentKey, Slots>): multiset<Token> {
    SumOver(OnTiles(tiles)) + SumOver(InBags(bags))
  }

  // A change on one tile shows in the world by as much.
  lemma TileChange(tiles: Tiles, bags: map<AgentKey, Slots>, p: Position, tile: MapTile,
                   a: multiset<Token>, b: multiset<Token>)
    requires p in tiles && TallyAll(tile.items) + a == TallyAll(tiles[p].items) + b
    ensures WorldTally(tiles[p := tile], bags) + a == WorldTally(tiles, bags) + b
  {
    assert OnTiles(tiles[p := tile]) == OnTiles(tiles)[p := tile.items];
    EntryBecomes(OnTiles(tiles), p, tile.items, a, b);
    Balance(SumOver(InBags(bags)), SumOver(OnTiles(tiles)[p := tile.items]), a, SumOver(OnTiles(tiles)), b);
  }

  // So does a change in one player's slots.
  lemma BagChange(tiles: Tiles, bags: map<AgentKey, Slots>, k: AgentKey, slots: Slots,
                  a: multiset<Token>, b: multiset<Token>)
    requires k in bags && HeldTally(slots) + a == HeldTally(bags[k]) + b
    ensures WorldTally(tiles, bags[k := slots]) + a == WorldTally(tiles, bags) + b
  {
    assert InBags(bags[k := slots]) == InBags(bags)[k := Held(slots)];
    EntryBecomes(InBags(bags), k, Held(slots), a, b);
    Balance(SumOver(OnTiles(tiles)), SumOver(InBags(bags)[k := Held(slots)]), a, SumOver(InBags(bags)), b);
  }

  // Whatever one tile or one inventory holds is part of the world.
  lemma TileIsPart(tiles: Tiles, bags: map<AgentKey, Slots>, p: Position)
    requires p in tiles
    ensures TallyAll(tiles[p].items) <= WorldTally(tiles, bags)
  {
    SumSplits(OnTiles(tiles), p);
  }

  lemma BagIsPart(tiles: Tiles, bags: map<AgentKey, Slots>, k: AgentKey)
    requires k in bags
    ensures HeldTally(bags[k]) <= WorldTally(tiles, bags)
  {
    SumSplits(InBags(bags), k);
  }

  lemma UniquePart(part: multiset<Token>, whole: multiset<Token>)
    requires part <= whole && Unique(whole)
    ensures Unique(part)
  {
    forall g ensures part[Name(g)] <= 1 { assert whole[Name(g)] <= 1; }
  }
}
