/** Which tiles a player sees, and which of them a step brings into view. */
module Viewport {
  import opened Wrappers
  import opened Positions
  import opened LineOfSight

  const HALF_WIDTH: int := VIEWPORT_WIDTH / 2
  const HALF_HEIGHT: int := VIEWPORT_HEIGHT / 2
  const MAX_FLOOR: U8 := 15

  // The tiles `floor` contributes to a view centred on `c`: one further down-right for
  // every floor above the centre.
  function FloorViewportRect(c: Position, floor: U8): Rect {
    var offset := c.z - floor;
    Rect(AsU16(Max(c.x + offset - HALF_WIDTH, 0)), AsU16(Max(c.y + offset - HALF_HEIGHT, 0)),
         AsU16(Max(c.x + offset + HALF_WIDTH, 0)), AsU16(Max(c.y + offset + HALF_HEIGHT, 0)))
  }

  // What is seen of a floor: nine tiles to either side and seven up and down of the centre, moved
  // down-right by a tile for every floor above it. A window that lies wholly beyond the map's edge
  // still shows the first row or column.
  lemma FloorViewportIff(c: Position, floor: U8, q: Position)
    requires c.x + (c.z - floor) + 9 <= U16_MAX && c.y + (c.z - floor) + 7 <= U16_MAX
    ensures var (x, y) := (c.x + (c.z - floor), c.y + (c.z - floor));
            FloorViewportRect(c, floor).Contains(q) <==>
              && (x - 9 <= q.x <= x + 9 || (x + 9 < 0 && q.x == 0))
              && (y - 7 <= q.y <= y + 7 || (y + 7 < 0 && q.y == 0))
  {
    SideIff(c.x + (c.z - floor), HALF_WIDTH, q.x);
    SideIff(c.y + (c.z - floor), HALF_HEIGHT, q.y);
  }

  lemma SideIff(v: int, half: nat, n: nat)
    requires v + half <= U16_MAX
    ensures AsU16(Max(v - half, 0)) <= n <= AsU16(Max(v + half, 0)) <==>
              (v - half <= n <= v + half || (v + half < 0 && n == 0))
  {
    var (low, high) := (Max(v - half, 0), Max(v + half, 0));
    assert low <= high <= U16_MAX;
  }

  // A cast to a signed 16-bit word.
  function AsI16(v: int): (w: int)
    ensures -0x8000 <= w < 0x8000 && (v - w) % 0x1_0000 == 0
  {
    var w := v % 0x1_0000;
    if w < 0x8000 then w else w - 0x1_0000
  }

  // The same window computed in signed 16-bit arithmetic.
  function ExpansionWindow(p: Position, floor: U8): Rect {
    var offset := AsI16(p.z) - AsI16(floor);
    var (x, y) := (AsI16(p.x), AsI16(p.y));
    Rect(AsU16(Max(x - HALF_WIDTH + offset, 0)), AsU16(Max(y - HALF_HEIGHT + offset, 0)),
         AsU16(x + HALF_WIDTH + offset), AsU16(y + HALF_HEIGHT + offset))
  }

  // The row, the column, or one of each without their shared corner, on the sides `d` faces.
  function Strips(w: Rect, d: Direction): (Rect, Option<Rect>) {
    var x0: int, y0: int, x1: int, y1: int := w.minX, w.minY, w.maxX, w.maxY;
    match d
    case North => (Rect(x0, y0, x1, y0), None)
    case South => (Rect(x0, y1, x1, y1), None)
    case East => (Rect(x1, y0, x1, y1), None)
    case West => (Rect(x0, y0, x0, y1), None)
    case NorthEast => (Rect(x0, y0, x1, y0), Some(Rect(x1, AsU16(y0 + 1), x1, y1)))
    case NorthWest => (Rect(x0, y0, x1, y0), Some(Rect(x0, AsU16(y0 + 1), x0, y1)))
    case SouthEast => (Rect(x0, y1, x1, y1), Some(Rect(x1, y0, x1, Saturate(y1 - 1))))
    case SouthWest => (Rect(x0, y1, x1, y1), Some(Rect(x0, y0, x0, Saturate(y1 - 1))))
  }

  // What a step in `d` uncovers on `floor`.
  function ExpansionRects(p: Position, d: Direction, floor: U8): (Rect, Option<Rect>) {
    Strips(ExpansionWindow(p, floor), d)
  }

  ghost predicate InExpansion(q: Position, p: Position, d: Direction, floor: U8) {
    var (first, second) := ExpansionRects(p, d, floor);
    first.Contains(q) || (second.Some? && second.value.Contains(q))
  }

  // Positions whose window neither wraps a signed word nor lies wholly beyond the map's
  // north or west edge.
  predicate WindowInRange(p: Position, floor: U8) {
    && p.x + HALF_WIDTH + MAX_FLOOR < 0x8000 && p.y + HALF_HEIGHT + MAX_FLOOR < 0x8000
    && p.z <= MAX_FLOOR && floor <= MAX_FLOOR
    && p.x + HALF_WIDTH + (p.z - floor) > 0 && p.y + HALF_HEIGHT + (p.z - floor) > 0
  }

  // The window's leading edge on the side the step goes towards is not clamped at zero.
  predicate LeadingEdgeOnMap(p: Position, d: Direction, floor: U8) {
    && (d.Delta().0 < 0 ==> p.x - HALF_WIDTH + (p.z - floor) >= 0)
    && (d.Delta().1 < 0 ==> p.y - HALF_HEIGHT + (p.z - floor) >= 0)
  }

  // An arrival in `p` by an unsaturated step.
  predicate Arrives(before: Position, d: Direction, p: Position) {
    p.z == before.z && p.x == before.x + d.Delta().0 && p.y == before.y + d.Delta().1
  }

  ghost predicate ExpansionIsTheDifference(before: Position, d: Direction, p: Position, floor: U8) {
    forall q: Position :: InExpansion(q, p, d, floor) <==>
      FloorViewportRect(p, floor).Contains(q) && !FloorViewportRect(before, floor).Contains(q)
  }

  // In range, both computations give the window without wrapping.
  lemma WindowsAgree(p: Position, floor: U8)
    requires WindowInRange(p, floor)
    ensures ExpansionWindow(p, floor) == FloorViewportRect(p, floor)
    ensures var (w, offset) := (FloorViewportRect(p, floor), p.z - floor);
            && w.minX == Max(p.x + offset - HALF_WIDTH, 0) && w.maxX == p.x + offset + HALF_WIDTH < 0x8000
            && w.minY == Max(p.y + offset - HALF_HEIGHT, 0) && w.maxY == p.y + offset + HALF_HEIGHT < 0x8000
  {
    SignedIsPlain(p.x);
    SignedIsPlain(p.y);
    SignedIsPlain(p.z);
    SignedIsPlain(floor);
    AxisIsPlain(p.x, p.z - floor, HALF_WIDTH);
    AxisIsPlain(p.y, p.z - floor, HALF_HEIGHT);
  }

  lemma SignedIsPlain(v: int)
    requires 0 <= v < 0x8000
    ensures AsI16(v) == v
  {
  }

  lemma AxisIsPlain(v: int, offset: int, half: int)
    requires 0 <= v && -0x8000 <= offset && 0 <= half && 0 < v + half + offset < 0x8000
    ensures AsU16(Max(v - half + offset, 0)) == AsU16(Max(v + offset - half, 0)) == Max(v + offset - half, 0)
    ensures AsU16(v + half + offset) == AsU16(Max(v + offset + half, 0)) == v + offset + half
  {
  }

  ghost predicate InStrips(q: Position, w: Rect, d: Direction) {
    var (first, second) := Strips(w, d);
    first.Contains(q) || (second.Some? && second.value.Contains(q))
  }

  // `w` is `was` moved one tile in `d`, its low sides possibly held back by the map edge.
  ghost predicate Shifted(was: Rect, d: Direction, w: Rect) {
    && was.minX <= was.maxX < 0x8000 && was.minY <= was.maxY < 0x8000
    && w.minX <= w.maxX < 0x8000 && w.minY <= w.maxY < 0x8000
    && w.maxX == was.maxX + d.Delta().0 && w.maxY == was.maxY + d.Delta().1
    && (if d.Delta().0 < 0 then w.minX == was.minX - 1 else was.minX <= w.minX <= was.minX + d.Delta().0)
    && (if d.Delta().1 < 0 then w.minY == was.minY - 1 else was.minY <= w.minY <= was.minY + d.Delta().1)
  }

  lemma StripsAreTheDifference(was: Rect, d: Direction, w: Rect, q: Position)
    requires Shifted(was, d, w)
    ensures InStrips(q, w, d) <==> w.Contains(q) && !was.Contains(q)
  {
    assert w.minY + 1 == AsU16(w.minY + 1);
  }

  lemma StripsOfAWindowAreDisjoint(w: Rect, d: Direction, q: Position)
    requires w.maxX < 0x8000 && w.maxY < 0x8000 && w.minX <= w.maxX && w.minY <= w.maxY && w.maxY > 0
    ensures var (first, second) := Strips(w, d);
            second.Some? ==> !(first.Contains(q) && second.value.Contains(q))
  {
    assert w.minY + 1 == AsU16(w.minY + 1);
  }

  lemma StripsAreDisjoint(p: Position, d: Direction, floor: U8, q: Position)
    requires WindowInRange(p, floor)
    ensures var (first, second) := ExpansionRects(p, d, floor);
            second.Some? ==> !(first.Contains(q) && second.value.Contains(q))
  {
    WindowsAgree(p, floor);
    StripsOfAWindowAreDisjoint(FloorViewportRect(p, floor), d, q);
  }

  // On every floor and in all eight directions the strips of the position arrived at are
  // the new window minus the old one - exactly as long as the window is not already
  // clamped on the side walked towards, where the strips repeat tiles the player has.
  lemma ExpansionIsTheDifferenceIff(before: Position, d: Direction, p: Position, floor: U8)
    requires Arrives(before, d, p) && WindowInRange(p, floor) && WindowInRange(before, floor)
    ensures ExpansionIsTheDifference(before, d, p, floor) <==> LeadingEdgeOnMap(p, d, floor)
  {
    WindowsAgree(p, floor);
    WindowsAgree(before, floor);
    var (was, w) := (FloorViewportRect(before, floor), FloorViewportRect(p, floor));
    if LeadingEdgeOnMap(p, d, floor) {
      forall q: Position ensures InExpansion(q, p, d, floor) <==> w.Contains(q) && !was.Contains(q) {
        StripsAreTheDifference(was, d, w, q);
      }
    } else {
      var q := SharedByTheClampedEdge(was, d, w);
      assert InExpansion(q, p, d, floor);
    }
  }

  // The window walked out of, and the same clamped at zero on a side walked towards.
  ghost predicate Clamped(was: Rect, d: Direction, w: Rect) {
    && was.minX < was.maxX < 0x8000 && was.minY < was.maxY < 0x8000
    && w.minX <= w.maxX < 0x8000 && w.minY <= w.maxY < 0x8000
    && w.maxX == was.maxX + d.Delta().0 && w.maxY == was.maxY + d.Delta().1
    && (d.Delta().0 >= 0 ==> was.minX <= w.minX <= was.minX + d.Delta().0)
    && (d.Delta().1 >= 0 ==> was.minY <= w.minY <= was.minY + d.Delta().1)
    && ((d.Delta().0 < 0 && was.minX == 0 == w.minX) || (d.Delta().1 < 0 && was.minY == 0 == w.minY))
  }

  // A tile the clamped edge shares with the window walked out of.
  lemma SharedByTheClampedEdge(was: Rect, d: Direction, w: Rect) returns (q: Position)
    requires Clamped(was, d, w)
    ensures InStrips(q, w, d) && was.Contains(q)
  {
    q := Position(
      if d.Delta().0 > 0 then w.minX else if d.Delta().0 < 0 && was.minX == 0 == w.minX then 0 else w.maxX,
      if d.Delta().1 > 0 then w.minY else if d.Delta().1 < 0 && was.minY == 0 == w.minY then 0 else w.maxY,
      0);
  }

  // Asked about the position walked from, as the tile refresh of a walk does, the strips
  // name only tiles that were already in view.
  lemma ExpansionOfTheOldPositionIsOldNews(before: Position, d: Direction, floor: U8, q: Position)
    requires WindowInRange(before, floor)
    ensures InExpansion(q, before, d, floor) ==> FloorViewportRect(before, floor).Contains(q)
  {
    WindowsAgree(before, floor);
    StripsLieInTheWindow(FloorViewportRect(before, floor), d, q);
  }

  lemma StripsLieInTheWindow(w: Rect, d: Direction, q: Position)
    requires w.maxX < 0x8000 && w.maxY < 0x8000 && w.minX <= w.maxX && w.minY <= w.maxY && w.maxY > 0
    ensures InStrips(q, w, d) ==> w.Contains(q)
  {
    assert w.minY + 1 == AsU16(w.minY + 1);
  }
}
