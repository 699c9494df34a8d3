/**
 The world's tiles in 16x16 chunks. Seen from outside it is a flat map from positions to
 tiles, and a walk over a rectangle visits each of its positions once.
 */
module Chunks {
  import opened Wrappers
  import opened Positions
  import opened Items

  datatype MapTile = MapTile(items: seq<Item>, agents: seq<AgentKey>)

  const CHUNK_SIDE: nat := 16
  const CHUNK_AREA: nat := CHUNK_SIDE * CHUNK_SIDE

  datatype ChunkCoord = ChunkCoord(cx: nat, cy: nat, z: U8)

  type Chunk = tiles: seq<Option<MapTile>> | |tiles| == CHUNK_AREA witness seq(CHUNK_AREA, _ => None)

  type ChunkMap = map<ChunkCoord, Chunk>

  function CoordOf(p: Position): ChunkCoord { ChunkCoord(p.x / CHUNK_SIDE, p.y / CHUNK_SIDE, p.z) }

  function LocalIndexOf(lx: nat, ly: nat): (i: nat)
    requires lx < CHUNK_SIDE && ly < CHUNK_SIDE
    ensures i < CHUNK_AREA
  {
    ly * CHUNK_SIDE + lx
  }

  function LocalIndex(p: Position): (i: nat)
    ensures i < CHUNK_AREA
  {
    LocalIndexOf(p.x % CHUNK_SIDE, p.y % CHUNK_SIDE)
  }

  // A chunk and an index in it are one position.
  lemma PlaceIsInjective(p: Position, q: Position)
    ensures CoordOf(p) == CoordOf(q) && LocalIndex(p) == LocalIndex(q) <==> p == q
  {
    assert p.x == p.x / 16 * 16 + p.x % 16 && q.x == q.x / 16 * 16 + q.x % 16;
    assert p.y == p.y / 16 * 16 + p.y % 16 && q.y == q.y / 16 * 16 + q.y % 16;
  }

  function TileAt(chunks: ChunkMap, p: Position): Option<MapTile> {
    if CoordOf(p) in chunks then chunks[CoordOf(p)][LocalIndex(p)] else None
  }

  function EmptyChunk(): Chunk { seq(CHUNK_AREA, _ => None) }

  // Storing a tile, creating its chunk if there is none.
  function WithTile(chunks: ChunkMap, p: Position, tile: MapTile): ChunkMap {
    var chunk := if CoordOf(p) in chunks then chunks[CoordOf(p)] else EmptyChunk();
    chunks[CoordOf(p) := chunk[LocalIndex(p) := Some(tile)]]
  }

  lemma TileStored(chunks: ChunkMap, p: Position, tile: MapTile, q: Position)
    ensures TileAt(WithTile(chunks, p, tile), q) == if q == p then Some(tile) else TileAt(chunks, q)
  {
    PlaceIsInjective(p, q);
  }

  // ---------------------------------------------------------------- rectangles

  // One chunk's share of a rectangle, in chunk-local coordinates.
  datatype Slice = Slice(coord: ChunkCoord, lx0: nat, lx1: int, ly0: nat, ly1: int)

  ghost predicate SliceOk(s: Slice) {
    s.coord.cx < 4096 && s.coord.cy < 4096 && s.lx1 < CHUNK_SIDE && s.ly1 < CHUNK_SIDE
  }

  function SliceAt(r: Rect, z: U8, cx: nat, cy: nat): (s: Slice)
    requires cx <= r.maxX / CHUNK_SIDE && cy <= r.maxY / CHUNK_SIDE
    ensures SliceOk(s)
  {
    var (baseX, baseY) := (cx * CHUNK_SIDE, cy * CHUNK_SIDE);
    Slice(ChunkCoord(cx, cy, z),
          Max(r.minX, baseX) - baseX, Min(r.maxX, baseX + CHUNK_SIDE - 1) - baseX,
          Max(r.minY, baseY) - baseY, Min(r.maxY, baseY + CHUNK_SIDE - 1) - baseY)
  }

  function SliceRow(r: Rect, z: U8, cy: nat, cx: nat): seq<Slice>
    requires cy <= r.maxY / CHUNK_SIDE
    decreases r.maxX / CHUNK_SIDE + 1 - cx
  {
    if cx > r.maxX / CHUNK_SIDE then [] else [SliceAt(r, z, cx, cy)] + SliceRow(r, z, cy, cx + 1)
  }

  function SliceRows(r: Rect, z: U8, cy: nat): seq<Slice>
    decreases r.maxY / CHUNK_SIDE + 1 - cy
  {
    if cy > r.maxY / CHUNK_SIDE then []
    else SliceRow(r, z, cy, r.minX / CHUNK_SIDE) + SliceRows(r, z, cy + 1)
  }

  // Every chunk the rectangle touches, the ones the map does not hold included.
  function ChunksInRect(r: Rect, z: U8): seq<Slice> { SliceRows(r, z, r.minY / CHUNK_SIDE) }

  type Visit = (Position, Option<MapTile>)

  function VisitAt(chunks: ChunkMap, s: Slice, lx: nat, ly: nat): Visit
    requires s.coord.cx < 4096 && s.coord.cy < 4096 && lx < CHUNK_SIDE && ly < CHUNK_SIDE
  {
    (Position(s.coord.cx * CHUNK_SIDE + lx, s.coord.cy * CHUNK_SIDE + ly, s.coord.z),
     if s.coord in chunks then chunks[s.coord][LocalIndexOf(lx, ly)] else None)
  }

  function VisitRow(chunks: ChunkMap, s: Slice, ly: nat, lx: nat): seq<Visit>
    requires SliceOk(s) && ly < CHUNK_SIDE
    decreases s.lx1 + 1 - lx
  {
    if lx > s.lx1 then [] else [VisitAt(chunks, s, lx, ly)] + VisitRow(chunks, s, ly, lx + 1)
  }

  function VisitRows(chunks: ChunkMap, s: Slice, ly: nat): seq<Visit>
    requires SliceOk(s)
    decreases s.ly1 + 1 - ly
  {
    if ly > s.ly1 then [] else VisitRow(chunks, s, ly, s.lx0) + VisitRows(chunks, s, ly + 1)
  }

  function SliceTiles(chunks: ChunkMap, s: Slice): seq<Visit>
    requires SliceOk(s)
  {
    VisitRows(chunks, s, s.ly0)
  }

  ghost predicate SlicesOk(slices: seq<Slice>) {
    forall s :: s in slices ==> SliceOk(s)
  }

  function TilesOf(chunks: ChunkMap, slices: seq<Slice>): seq<Visit>
    requires SlicesOk(slices)
  {
    if slices == [] then [] else SliceTiles(chunks, slices[0]) + TilesOf(chunks, slices[1..])
  }

  lemma {:induction false} SliceRowOk(r: Rect, z: U8, cy: nat, cx: nat)
    requires cy <= r.maxY / CHUNK_SIDE
    ensures SlicesOk(SliceRow(r, z, cy, cx))
    decreases r.maxX / CHUNK_SIDE + 1 - cx
  {
    if cx <= r.maxX / CHUNK_SIDE { SliceRowOk(r, z, cy, cx + 1); }
  }

  lemma {:induction false} SliceRowsOk(r: Rect, z: U8, cy: nat)
    ensures SlicesOk(SliceRows(r, z, cy))
    decreases r.maxY / CHUNK_SIDE + 1 - cy
  {
    if cy <= r.maxY / CHUNK_SIDE {
      SliceRowOk(r, z, cy, r.minX / CHUNK_SIDE);
      SliceRowsOk(r, z, cy + 1);
    }
  }

  function TilesInRect(chunks: ChunkMap, r: Rect, z: U8): seq<Visit> {
    SliceRowsOk(r, z, r.minY / CHUNK_SIDE);
    TilesOf(chunks, ChunksInRect(r, z))
  }

  // ---------------------------------------------------------------- each position once

  // How often a list of visits names a position.
  function Visits(v: seq<Visit>, p: Position): nat {
    if v == [] then 0 else (if v[0].0 == p then 1 else 0) + Visits(v[1..], p)
  }

  // Every visit carries the tile that is there.
  ghost predicate Truthful(chunks: ChunkMap, v: seq<Visit>) {
    forall i :: 0 <= i < |v| ==> v[i].1 == TileAt(chunks, v[i].0)
  }

  lemma {:induction false} VisitsAppend(a: seq<Visit>, b: seq<Visit>, p: Position)
    ensures Visits(a + b, p) == Visits(a, p) + Visits(b, p)
  {
    if a == [] {
      assert a + b == b;
    } else {
      assert (a + b)[1..] == a[1..] + b;
      VisitsAppend(a[1..], b, p);
    }
  }

  ghost predicate InSlice(s: Slice, p: Position, lx: nat, ly: nat) {
    && CoordOf(p) == s.coord
    && lx <= p.x % CHUNK_SIDE <= s.lx1 && ly <= p.y % CHUNK_SIDE <= s.ly1
  }

  lemma VisitIsTruthful(chunks: ChunkMap, s: Slice, lx: nat, ly: nat)
    requires s.coord.cx < 4096 && s.coord.cy < 4096 && lx < CHUNK_SIDE && ly < CHUNK_SIDE
    ensures var (p, tile) := VisitAt(chunks, s, lx, ly);
            CoordOf(p) == s.coord && p.x % CHUNK_SIDE == lx && p.y % CHUNK_SIDE == ly && tile == TileAt(chunks, p)
  {
  }

  lemma {:induction false} RowVisitsOnce(chunks: ChunkMap, s: Slice, ly: nat, lx: nat, p: Position)
    requires SliceOk(s) && ly < CHUNK_SIDE
    ensures Visits(VisitRow(chunks, s, ly, lx), p)
            == if CoordOf(p) == s.coord && p.y % CHUNK_SIDE == ly && lx <= p.x % CHUNK_SIDE <= s.lx1 then 1 else 0
    ensures Truthful(chunks, VisitRow(chunks, s, ly, lx))
    decreases s.lx1 + 1 - lx
  {
    if lx <= s.lx1 {
      RowVisitsOnce(chunks, s, ly, lx + 1, p);
      VisitIsTruthful(chunks, s, lx, ly);
      PlaceIsInjective(VisitAt(chunks, s, lx, ly).0, p);
    }
  }

  lemma {:induction false} RowsVisitOnce(chunks: ChunkMap, s: Slice, ly: nat, p: Position)
    requires SliceOk(s)
    ensures Visits(VisitRows(chunks, s, ly), p) == if InSlice(s, p, s.lx0, ly) then 1 else 0
    ensures Truthful(chunks, VisitRows(chunks, s, ly))
    decreases s.ly1 + 1 - ly
  {
    if ly <= s.ly1 {
      RowVisitsOnce(chunks, s, ly, s.lx0, p);
      RowsVisitOnce(chunks, s, ly + 1, p);
      VisitsAppend(VisitRow(chunks, s, ly, s.lx0), VisitRows(chunks, s, ly + 1), p);
    }
  }

  lemma SliceOfRect(r: Rect, z: U8, cx: nat, cy: nat, p: Position)
    requires cx <= r.maxX / CHUNK_SIDE && cy <= r.maxY / CHUNK_SIDE
    ensures var s := SliceAt(r, z, cx, cy);
            InSlice(s, p, s.lx0, s.ly0) <==> r.Contains(p) && CoordOf(p) == ChunkCoord(cx, cy, z)
  {
    assert p.x == p.x / 16 * 16 + p.x % 16 && p.y == p.y / 16 * 16 + p.y % 16;
  }

  lemma {:induction false} SlicesAppend(chunks: ChunkMap, a: seq<Slice>, b: seq<Slice>)
    requires SlicesOk(a) && SlicesOk(b)
    ensures TilesOf(chunks, a + b) == TilesOf(chunks, a) + TilesOf(chunks, b)
  {
    if a == [] {
      assert a + b == b;
    } else {
      assert (a + b)[1..] == a[1..] + b;
      SlicesAppend(chunks, a[1..], b);
    }
  }

  lemma {:induction false} SliceRowVisitsOnce(chunks: ChunkMap, r: Rect, z: U8, cy: nat, cx: nat, p: Position)
    requires cy <= r.maxY / CHUNK_SIDE
    ensures SlicesOk(SliceRow(r, z, cy, cx))
    ensures Visits(TilesOf(chunks, SliceRow(r, z, cy, cx)), p)
            == if r.Contains(p) && p.z == z && p.y / CHUNK_SIDE == cy && cx <= p.x / CHUNK_SIDE then 1 else 0
    ensures Truthful(chunks, TilesOf(chunks, SliceRow(r, z, cy, cx)))
    decreases r.maxX / CHUNK_SIDE + 1 - cx
  {
    if cx <= r.maxX / CHUNK_SIDE {
      var s := SliceAt(r, z, cx, cy);
      SliceRowVisitsOnce(chunks, r, z, cy, cx + 1, p);
      RowsVisitOnce(chunks, s, s.ly0, p);
      SliceOfRect(r, z, cx, cy, p);
      assert ([s] + SliceRow(r, z, cy, cx + 1))[1..] == SliceRow(r, z, cy, cx + 1);
      VisitsAppend(SliceTiles(chunks, s), TilesOf(chunks, SliceRow(r, z, cy, cx + 1)), p);
    }
  }

  lemma {:induction false} SliceRowsVisitOnce(chunks: ChunkMap, r: Rect, z: U8, cy: nat, p: Position)
    ensures SlicesOk(SliceRows(r, z, cy))
    ensures Visits(TilesOf(chunks, SliceRows(r, z, cy)), p)
            == if r.Contains(p) && p.z == z && cy <= p.y / CHUNK_SIDE then 1 else 0
    ensures Truthful(chunks, TilesOf(chunks, SliceRows(r, z, cy)))
    decreases r.maxY / CHUNK_SIDE + 1 - cy
  {
    if cy <= r.maxY / CHUNK_SIDE {
      var row := SliceRow(r, z, cy, r.minX / CHUNK_SIDE);
      SliceRowVisitsOnce(chunks, r, z, cy, r.minX / CHUNK_SIDE, p);
      SliceRowsVisitOnce(chunks, r, z, cy + 1, p);
      SlicesAppend(chunks, row, SliceRows(r, z, cy + 1));
      VisitsAppend(TilesOf(chunks, row), TilesOf(chunks, SliceRows(r, z, cy + 1)), p);
    }
  }

  // The walk over a rectangle visits exactly its positions, each once, with the tile that a
  // lookup of the position gives.
  lemma TilesInRectVisitsEachOnce(chunks: ChunkMap, r: Rect, z: U8, p: Position)
    ensures Visits(TilesInRect(chunks, r, z), p) == if r.Contains(p) && p.z == z then 1 else 0
    ensures Truthful(chunks, TilesInRect(chunks, r, z))
  {
    SliceRowsVisitOnce(chunks, r, z, r.minY / CHUNK_SIDE, p);
  }

  // ---------------------------------------------------------------- agents

  type Sighting = (AgentKey, Position)

  function Seated(p: Position, agents: seq<AgentKey>): seq<Sighting> {
    if agents == [] then [] else [(agents[0], p)] + Seated(p, agents[1..])
  }

  function AgentsOf(v: seq<Visit>): seq<Sighting> {
    if v == [] then []
    else (if v[0].1.Some? then Seated(v[0].0, v[0].1.value.agents) else []) + AgentsOf(v[1..])
  }

  // Chunks the map does not hold are passed over.
  function AgentsOfSlices(chunks: ChunkMap, slices: seq<Slice>): seq<Sighting>
    requires SlicesOk(slices)
  {
    if slices == [] then []
    else (if slices[0].coord in chunks then AgentsOf(SliceTiles(chunks, slices[0])) else [])
         + AgentsOfSlices(chunks, slices[1..])
  }

  function AgentsInRect(chunks: ChunkMap, r: Rect, z: U8): seq<Sighting> {
    SliceRowsOk(r, z, r.minY / CHUNK_SIDE);
    AgentsOfSlices(chunks, ChunksInRect(r, z))
  }

  function TimesSeen(list: seq<Sighting>, k: AgentKey, p: Position): nat {
    if list == [] then 0 else (if list[0] == (k, p) then 1 else 0) + TimesSeen(list[1..], k, p)
  }

  function TimesIn(agents: seq<AgentKey>, k: AgentKey): nat {
    if agents == [] then 0 else (if agents[0] == k then 1 else 0) + TimesIn(agents[1..], k)
  }

  lemma {:induction false} SeenAppend(a: seq<Sighting>, b: seq<Sighting>, k: AgentKey, p: Position)
    ensures TimesSeen(a + b, k, p) == TimesSeen(a, k, p) + TimesSeen(b, k, p)
  {
    if a == [] {
      assert a + b == b;
    } else {
      assert (a + b)[1..] == a[1..] + b;
      SeenAppend(a[1..], b, k, p);
    }
  }

  lemma {:induction false} SeatedSeen(at: Position, agents: seq<AgentKey>, k: AgentKey, p: Position)
    ensures TimesSeen(Seated(at, agents), k, p) == if at == p then TimesIn(agents, k) else 0
  {
    if agents != [] { SeatedSeen(at, agents[1..], k, p); }
  }

  ghost function SeatedAt(chunks: ChunkMap, p: Position, k: AgentKey): nat {
    var t := TileAt(chunks, p);
    if t.Some? then TimesIn(t.value.agents, k) else 0
  }

  lemma {:induction false} AgentsSeen(chunks: ChunkMap, v: seq<Visit>, k: AgentKey, p: Position)
    requires Truthful(chunks, v)
    ensures TimesSeen(AgentsOf(v), k, p) == Visits(v, p) * SeatedAt(chunks, p, k)
  {
    if v != [] {
      assert Truthful(chunks, v[1..]);
      AgentsSeen(chunks, v[1..], k, p);
      var here := if v[0].1.Some? then Seated(v[0].0, v[0].1.value.agents) else [];
      SeenAppend(here, AgentsOf(v[1..]), k, p);
      if v[0].1.Some? { SeatedSeen(v[0].0, v[0].1.value.agents, k, p); }
      OneMore(Visits(v[1..], p), SeatedAt(chunks, p, k));
    }
  }

  lemma OneMore(n: nat, m: nat)
    ensures (n + 1) * m == n * m + m
  {
  }

  lemma {:induction false} AgentsAppend(a: seq<Visit>, b: seq<Visit>)
    ensures AgentsOf(a + b) == AgentsOf(a) + AgentsOf(b)
  {
    if a == [] {
      assert a + b == b;
    } else {
      assert (a + b)[1..] == a[1..] + b;
      AgentsAppend(a[1..], b);
    }
  }

  lemma {:induction false} NothingSeatsNobody(v: seq<Visit>)
    requires forall i :: 0 <= i < |v| ==> v[i].1.None?
    ensures AgentsOf(v) == []
  {
    if v != [] { NothingSeatsNobody(v[1..]); }
  }

  lemma {:induction false} PassingOverLosesNobody(chunks: ChunkMap, slices: seq<Slice>, p: Position)
    requires SlicesOk(slices)
    ensures AgentsOfSlices(chunks, slices) == AgentsOf(TilesOf(chunks, slices))
  {
    if slices != [] {
      var s := slices[0];
      PassingOverLosesNobody(chunks, slices[1..], p);
      AgentsAppend(SliceTiles(chunks, s), TilesOf(chunks, slices[1..]));
      if s.coord !in chunks {
        RowsSeeNothing(chunks, s, s.ly0);
        NothingSeatsNobody(SliceTiles(chunks, s));
      }
    }
  }

  lemma {:induction false} RowSeesNothing(chunks: ChunkMap, s: Slice, ly: nat, lx: nat)
    requires SliceOk(s) && ly < CHUNK_SIDE && s.coord !in chunks
    ensures forall i :: 0 <= i < |VisitRow(chunks, s, ly, lx)| ==> VisitRow(chunks, s, ly, lx)[i].1.None?
    decreases s.lx1 + 1 - lx
  {
    if lx <= s.lx1 { RowSeesNothing(chunks, s, ly, lx + 1); }
  }

  lemma {:induction false} RowsSeeNothing(chunks: ChunkMap, s: Slice, ly: nat)
    requires SliceOk(s) && s.coord !in chunks
    ensures forall i :: 0 <= i < |VisitRows(chunks, s, ly)| ==> VisitRows(chunks, s, ly)[i].1.None?
    decreases s.ly1 + 1 - ly
  {
    if ly <= s.ly1 {
      RowSeesNothing(chunks, s, ly, s.lx0);
      RowsSeeNothing(chunks, s, ly + 1);
    }
  }

  // An agent is listed, with a position, as often as the tile there lists it.
  lemma AgentsInRectAreTheSeated(chunks: ChunkMap, r: Rect, z: U8, k: AgentKey, p: Position)
    ensures TimesSeen(AgentsInRect(chunks, r, z), k, p)
            == if r.Contains(p) && p.z == z then SeatedAt(chunks, p, k) else 0
  {
    SliceRowsOk(r, z, r.minY / CHUNK_SIDE);
    PassingOverLosesNobody(chunks, ChunksInRect(r, z), p);
    TilesInRectVisitsEachOnce(chunks, r, z, p);
    AgentsSeen(chunks, TilesInRect(chunks, r, z), k, p);
  }
}
