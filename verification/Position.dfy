/** Tiles, directions, rectangles and item placements. */
module Positions {
  import opened Wrappers

  datatype Position = Position(x: U16, y: U16, z: U8)

  // A slot-map key: never handed out twice.
  datatype AgentKey = AgentKey(id: nat)

  datatype Guid = Guid(name: string)

  datatype InventorySlot =
    BothHands | Head | Amulet | Backpack | Chest | RightHand | LeftHand | Legs | Feet | Ring | Trinket

  // The slots in the order of their wire ids.
  const ALL_SLOTS: seq<InventorySlot> :=
    [BothHands, Head, Amulet, Backpack, Chest, RightHand, LeftHand, Legs, Feet, Ring, Trinket]

  // Chebyshev distance; ignores the floor.
  function Distance(a: Position, b: Position): (d: U16)
  {
    Max(Abs(a.x - b.x), Abs(a.y - b.y))
  }

  predicate IsWithin(a: Position, b: Position, range: U16) {
    a.z == b.z && Distance(a, b) <= range
  }

  function CheckedOffset(p: Position, dx: int, dy: int): Option<Position> {
    if 0 <= p.x + dx <= U16_MAX && 0 <= p.y + dy <= U16_MAX
    then Some(Position(p.x + dx, p.y + dy, p.z)) else None
  }

  datatype Direction = North | East | West | South | NorthEast | SouthEast | NorthWest | SouthWest
  {
    predicate IsDiagonal() { NorthEast? || SouthEast? || NorthWest? || SouthWest? }

    function Delta(): (d: (int, int)) {
      match this
      case North => (0, -1)
      case NorthEast => (1, -1)
      case East => (1, 0)
      case SouthEast => (1, 1)
      case South => (0, 1)
      case SouthWest => (-1, 1)
      case West => (-1, 0)
      case NorthWest => (-1, -1)
    }
  }

  const ALL_DIRECTIONS: seq<Direction> :=
    [North, NorthEast, East, SouthEast, South, SouthWest, West, NorthWest]

  function Saturate(v: int): U16 {
    if v < 0 then 0 else if v > U16_MAX then U16_MAX else v
  }

  // One step; the map edge saturates.
  function Step(p: Position, d: Direction): Position {
    Position(Saturate(p.x + d.Delta().0), Saturate(p.y + d.Delta().1), p.z)
  }

  datatype Rect = Rect(minX: U16, minY: U16, maxX: U16, maxY: U16)
  {
    predicate Contains(p: Position) { minX <= p.x <= maxX && minY <= p.y <= maxY }
  }

  const VIEWPORT_WIDTH: nat := 19
  const VIEWPORT_HEIGHT: nat := 15

  function Around(p: Position, radiusX: U16, radiusY: U16): Rect {
    Rect(Saturate(p.x - radiusX), Saturate(p.y - radiusY), Saturate(p.x + radiusX), Saturate(p.y + radiusY))
  }

  function PlayerViewport(p: Position): Rect { Around(p, VIEWPORT_WIDTH / 2, VIEWPORT_HEIGHT / 2) }

  // Where an item sits: directly on a tile, directly in a slot, or inside a named container.
  datatype ItemPlacement =
    | OnMap(pos: Position)
    | InInventory(slot: InventorySlot, agent: AgentKey)
    | InContainer(guid: Guid, within: ItemPlacement, index: nat)

  datatype PlacementSite = Tile(pos: Position) | Slot(slot: InventorySlot, agent: AgentKey)

  function Site(p: ItemPlacement): PlacementSite {
    match p
    case OnMap(pos) => Tile(pos)
    case InInventory(slot, agent) => Slot(slot, agent)
    case InContainer(_, within, _) => Site(within)
  }

  function Container(p: ItemPlacement): Option<(Guid, nat)> {
    if p.InContainer? then Some((p.guid, p.index)) else None
  }

  function SitePlacement(p: ItemPlacement): ItemPlacement {
    match Site(p)
    case Tile(pos) => OnMap(pos)
    case Slot(slot, agent) => InInventory(slot, agent)
  }

  // Whoever stands on the same floor and in the viewport can be targeted; what lies between
  // does not matter.
  predicate CanTarget(from: Position, to: Position) {
    from.z == to.z && PlayerViewport(from).Contains(to)
  }
}
