/**
 The walk search of the creatures: its edges, its heuristic and the table of reached tiles.
 The search algorithms themselves come from a library and are not modelled; what they need
 of the heuristic is what is proved here.
 */
module Pathfinding {
  import opened Wrappers
  import opened Positions

  datatype Goal = AtTile(tile: Position) | Within(of: Position, range: U16)

  // What the search reads from the world: which tiles `walker` may step on, their
  // friction, and the ticks a step over that friction takes (diagonal or not).
  datatype Terrain = Terrain(
    canMove: Position -> bool,
    friction: Position -> Option<U16>,
    walkTicks: (U16, bool) -> nat)

  // `None` where a walk would refuse the step; otherwise never less than one tick.
  function StepCost(t: Terrain, to: Position, diagonal: bool): (cost: Option<nat>)
    ensures cost.Some? ==> cost.value >= 1
  {
    if !t.canMove(to) then None
    else match t.friction(to)
      case None => None
      case Some(friction) => Some(Max(t.walkTicks(friction, diagonal), 1))
  }

  function SuccessorsVia(t: Terrain, from: Position, bounds: Rect, directions: seq<Direction>)
    : (r: seq<(Position, nat)>)
    ensures forall e :: e in r ==>
              exists d :: d in directions && e.0 == Step(from, d) && bounds.Contains(e.0)
                          && StepCost(t, e.0, d.IsDiagonal()) == Some(e.1)
  {
    if directions == [] then []
    else
      var to := Step(from, directions[0]);
      var cost := StepCost(t, to, directions[0].IsDiagonal());
      var rest := SuccessorsVia(t, from, bounds, directions[1..]);
      if bounds.Contains(to) && cost.Some? then [(to, cost.value)] + rest else rest
  }

  function Successors(t: Terrain, from: Position, bounds: Rect): seq<(Position, nat)> {
    SuccessorsVia(t, from, bounds, ALL_DIRECTIONS)
  }

  // ---------------------------------------------------------------- which steps are edges

  // Moving by (dx, dy), at the map edge by as much of it as there is map, leads to `e.0`; the
  // tile is within the bounds, can be stepped on and has a friction, and `e.1` is the ticks
  // the walk over it takes, one at the least.
  ghost predicate IsEdge(t: Terrain, from: Position, bounds: Rect, dx: int, dy: int, e: (Position, nat)) {
    && e.0.x as int == Max(0, Min(from.x + dx, 0xFFFF)) && e.0.y as int == Max(0, Min(from.y + dy, 0xFFFF))
    && e.0.z == from.z
    && bounds.minX <= e.0.x <= bounds.maxX && bounds.minY <= e.0.y <= bounds.maxY
    && t.canMove(e.0) && t.friction(e.0).Some?
    && e.1 == Max(1, t.walkTicks(t.friction(e.0).value, dx != 0 && dy != 0))
  }

  ghost predicate IsStep(t: Terrain, from: Position, bounds: Rect, e: (Position, nat)) {
    exists dx, dy :: -1 <= dx <= 1 && -1 <= dy <= 1 && (dx, dy) != (0, 0) && IsEdge(t, from, bounds, dx, dy, e)
  }

  // The offsets to the eight neighbours, in the order that breaks ties: clockwise from north.
  const NEIGHBOURS: seq<(int, int)> := [(0, -1), (1, -1), (1, 0), (1, 1), (0, 1), (-1, 1), (-1, 0), (-1, -1)]

  // The edges of `es` are those by the offsets that have one, in their order.
  ghost predicate EdgesBy(t: Terrain, from: Position, bounds: Rect, offsets: seq<(int, int)>, es: seq<(Position, nat)>)
    decreases offsets
  {
    if offsets == [] then es == []
    else if es != [] && IsEdge(t, from, bounds, offsets[0].0, offsets[0].1, es[0])
    then EdgesBy(t, from, bounds, offsets[1..], es[1..])
    else (forall e :: !IsEdge(t, from, bounds, offsets[0].0, offsets[0].1, e))
         && EdgesBy(t, from, bounds, offsets[1..], es)
  }

  lemma {:induction false} EdgesVia(t: Terrain, from: Position, bounds: Rect, ds: seq<Direction>,
                                    offsets: seq<(int, int)>)
    requires |ds| == |offsets| && forall i :: 0 <= i < |ds| ==> ds[i].Delta() == offsets[i]
    requires forall i :: 0 <= i < |ds| ==> (ds[i].IsDiagonal() <==> offsets[i].0 != 0 && offsets[i].1 != 0)
    ensures EdgesBy(t, from, bounds, offsets, SuccessorsVia(t, from, bounds, ds))
    decreases ds
  {
    if ds != [] { EdgesVia(t, from, bounds, ds[1..], offsets[1..]); }
  }

  ghost predicate IsEdgeOf(t: Terrain, from: Position, bounds: Rect, offsets: seq<(int, int)>, e: (Position, nat)) {
    exists i :: 0 <= i < |offsets| && IsEdge(t, from, bounds, offsets[i].0, offsets[i].1, e)
  }

  lemma {:induction false} FirstOrRest(t: Terrain, from: Position, bounds: Rect, offsets: seq<(int, int)>,
                                       e: (Position, nat))
    requires offsets != []
    ensures IsEdgeOf(t, from, bounds, offsets, e)
            <==> IsEdge(t, from, bounds, offsets[0].0, offsets[0].1, e) || IsEdgeOf(t, from, bounds, offsets[1..], e)
  {
    if i :| 0 <= i < |offsets| - 1 && IsEdge(t, from, bounds, offsets[1..][i].0, offsets[1..][i].1, e) {
      assert offsets[i + 1] == offsets[1..][i];
    }
    if i :| 0 < i < |offsets| && IsEdge(t, from, bounds, offsets[i].0, offsets[i].1, e) {
      assert offsets[1..][i - 1] == offsets[i];
    }
  }

  lemma {:induction false} EdgesAreThose(t: Terrain, from: Position, bounds: Rect, offsets: seq<(int, int)>,
                                         es: seq<(Position, nat)>, e: (Position, nat))
    requires EdgesBy(t, from, bounds, offsets, es)
    ensures e in es <==> IsEdgeOf(t, from, bounds, offsets, e)
    decreases offsets
  {
    if offsets != [] {
      FirstOrRest(t, from, bounds, offsets, e);
      if es != [] && IsEdge(t, from, bounds, offsets[0].0, offsets[0].1, es[0]) {
        EdgesAreThose(t, from, bounds, offsets[1..], es[1..], e);
      } else {
        EdgesAreThose(t, from, bounds, offsets[1..], es, e);
      }
    }
  }

  // The search sees every step to a neighbouring tile that may be taken, at what it costs, and
  // no other, in the order of the neighbours.
  lemma SuccessorsAreTheSteps(t: Terrain, from: Position, bounds: Rect)
    ensures EdgesBy(t, from, bounds, NEIGHBOURS, Successors(t, from, bounds))
    ensures forall e :: e in Successors(t, from, bounds) <==> IsStep(t, from, bounds, e)
  {
    EdgesVia(t, from, bounds, ALL_DIRECTIONS, NEIGHBOURS);
    forall e ensures e in Successors(t, from, bounds) <==> IsStep(t, from, bounds, e) {
      EdgesAreThose(t, from, bounds, NEIGHBOURS, Successors(t, from, bounds), e);
      EachNeighbour(t, from, bounds, e);
    }
  }

  lemma EachNeighbour(t: Terrain, from: Position, bounds: Rect, e: (Position, nat))
    ensures IsEdgeOf(t, from, bounds, NEIGHBOURS, e) <==> IsStep(t, from, bounds, e)
  {
    if dx, dy :| -1 <= dx <= 1 && -1 <= dy <= 1 && (dx, dy) != (0, 0) && IsEdge(t, from, bounds, dx, dy, e) {
      var i := NeighbourAt(dx, dy);
      assert IsEdge(t, from, bounds, NEIGHBOURS[i].0, NEIGHBOURS[i].1, e);
    }
    if i :| 0 <= i < |NEIGHBOURS| && IsEdge(t, from, bounds, NEIGHBOURS[i].0, NEIGHBOURS[i].1, e) {
      assert NEIGHBOURS[i] != (0, 0);
    }
  }

  lemma NeighbourAt(dx: int, dy: int) returns (i: nat)
    requires -1 <= dx <= 1 && -1 <= dy <= 1 && (dx, dy) != (0, 0)
    ensures i < |NEIGHBOURS| && NEIGHBOURS[i] == (dx, dy)
  {
    i := if dy == -1 then (if dx == 0 then 0 else if dx == 1 then 1 else 7)
         else if dy == 0 then (if dx == 1 then 2 else 6)
         else (if dx == 1 then 3 else if dx == 0 then 4 else 5);
  }

  function Heuristic(goal: Goal, from: Position): nat {
    match goal
    case AtTile(tile) => Distance(from, tile)
    case Within(of, range) => Max(Distance(from, of) - range, 0)
  }

  predicate GoalIsMet(goal: Goal, pos: Position) {
    match goal
    case AtTile(tile) => pos == tile
    case Within(of, range) => IsWithin(pos, of, range)
  }

  // ---------------------------------------------------------------- the heuristic

  // A step, the saturating one at the map edge included, changes no distance by more than one.
  lemma StepMovesOneTile(p: Position, d: Direction, of: Position)
    ensures Abs(Distance(p, of) - Distance(Step(p, d), of)) <= 1
  {
  }

  lemma HeuristicIsConsistent(t: Terrain, goal: Goal, from: Position, bounds: Rect, edge: (Position, nat))
    requires edge in Successors(t, from, bounds)
    ensures Heuristic(goal, from) <= edge.1 + Heuristic(goal, edge.0)
    ensures edge.0.z == from.z
  {
    var d :| d in ALL_DIRECTIONS && edge.0 == Step(from, d) && StepCost(t, edge.0, d.IsDiagonal()) == Some(edge.1);
    match goal
    case AtTile(tile) => StepMovesOneTile(from, d, tile);
    case Within(of, _) => StepMovesOneTile(from, d, of);
  }

  // A route: its tiles and the cost of each step.
  ghost predicate IsRoute(t: Terrain, bounds: Rect, from: Position, steps: seq<(Position, nat)>)
    decreases |steps|
  {
    steps == [] || (steps[0] in Successors(t, from, bounds) && IsRoute(t, bounds, steps[0].0, steps[1..]))
  }

  function RouteEnd(from: Position, steps: seq<(Position, nat)>): Position {
    if steps == [] then from else steps[|steps| - 1].0
  }

  function RouteCost(steps: seq<(Position, nat)>): nat {
    if steps == [] then 0 else steps[0].1 + RouteCost(steps[1..])
  }

  // Along any route the estimate drops by at most what the route costs; at the goal it is
  // zero, so it never exceeds the cost of any route that reaches the goal.
  lemma {:induction false} HeuristicIsAdmissible(
    t: Terrain, bounds: Rect, goal: Goal, from: Position, steps: seq<(Position, nat)>)
    requires IsRoute(t, bounds, from, steps)
    ensures Heuristic(goal, from) <= RouteCost(steps) + Heuristic(goal, RouteEnd(from, steps))
    ensures GoalIsMet(goal, RouteEnd(from, steps)) ==> Heuristic(goal, from) <= RouteCost(steps)
    ensures RouteEnd(from, steps).z == from.z
    decreases |steps|
  {
    if steps != [] {
      HeuristicIsConsistent(t, goal, from, bounds, steps[0]);
      HeuristicIsAdmissible(t, bounds, goal, steps[0].0, steps[1..]);
      assert RouteEnd(steps[0].0, steps[1..]) == RouteEnd(from, steps);
    }
  }

  // Where every tile can be walked on in one tick.
  ghost const OPEN := Terrain(_ => true, _ => Some(0), (_, _) => 1)
  ghost const WHOLE_MAP := Rect(0, 0, U16_MAX, U16_MAX)

  ghost function TileOf(goal: Goal): Position {
    match goal
    case AtTile(tile) => tile
    case Within(of, _) => of
  }

  function Towards(v: int, goal: int): int { if goal > v then 1 else if goal < v then -1 else 0 }

  lemma Closer(from: Position, of: Position)
    requires from.x != of.x || from.y != of.y
    ensures 0 <= from.x + Towards(from.x, of.x) <= U16_MAX && 0 <= from.y + Towards(from.y, of.y) <= U16_MAX
    ensures Distance(Position(from.x + Towards(from.x, of.x), from.y + Towards(from.y, of.y), from.z), of)
            == Distance(from, of) - 1
  {
  }

  lemma StepTowards(from: Position, of: Position) returns (next: Position)
    requires from.z == of.z && (from.x != of.x || from.y != of.y)
    ensures (next, 1) in Successors(OPEN, from, WHOLE_MAP) && next.z == of.z
    ensures Distance(next, of) == Distance(from, of) - 1
  {
    var (dx, dy) := (Towards(from.x, of.x), Towards(from.y, of.y));
    Closer(from, of);
    next := Position(from.x + dx, from.y + dy, from.z);
    assert IsEdge(OPEN, from, WHOLE_MAP, dx, dy, (next, 1));
    assert IsStep(OPEN, from, WHOLE_MAP, (next, 1));
    SuccessorsAreTheSteps(OPEN, from, WHOLE_MAP);
  }

  // No better estimate is admissible: on open ground some route to the goal costs no more.
  lemma {:induction false} HeuristicIsTight(goal: Goal, from: Position) returns (steps: seq<(Position, nat)>)
    requires from.z == TileOf(goal).z
    ensures IsRoute(OPEN, WHOLE_MAP, from, steps) && GoalIsMet(goal, RouteEnd(from, steps))
    ensures RouteCost(steps) == Heuristic(goal, from)
    decreases Distance(from, TileOf(goal))
  {
    if GoalIsMet(goal, from) {
      steps := [];
    } else {
      var next := StepTowards(from, TileOf(goal));
      var rest := HeuristicIsTight(goal, next);
      steps := [(next, 1)] + rest;
      assert steps[1..] == rest;
      assert RouteEnd(from, steps) == RouteEnd(next, rest);
    }
  }

  // The walker's own floor is the only one a route reaches, so `next_step` may give up at
  // once on a goal elsewhere.
  lemma OtherFloorsAreUnreachable(
    t: Terrain, bounds: Rect, goal: Goal, from: Position, steps: seq<(Position, nat)>)
    requires IsRoute(t, bounds, from, steps)
    requires from.z != (match goal case AtTile(tile) => tile.z case Within(of, _) => of.z)
    ensures !GoalIsMet(goal, RouteEnd(from, steps))
  {
    HeuristicIsAdmissible(t, bounds, goal, from, steps);
  }

  // ---------------------------------------------------------------- reached tiles

  function MinOpt(a: Option<nat>, b: Option<nat>): Option<nat> {
    match (a, b)
    case (None, _) => b
    case (_, None) => a
    case (Some(x), Some(y)) => Some(Min(x, y))
  }

  function Lookup(costs: map<Position, nat>, p: Option<Position>): Option<nat> {
    if p.Some? && p.value in costs then Some(costs[p.value]) else None
  }

  // The row of offsets dx..=range at height dy.
  function MinOfRow(costs: map<Position, nat>, of: Position, range: U16, dy: int, dx: int): Option<nat>
    decreases range - dx
  {
    if dx > range then None
    else MinOpt(Lookup(costs, CheckedOffset(of, dx, dy)), MinOfRow(costs, of, range, dy, dx + 1))
  }

  function MinOfRows(costs: map<Position, nat>, of: Position, range: U16, dy: int): Option<nat>
    decreases range - dy
  {
    if dy > range then None
    else MinOpt(MinOfRow(costs, of, range, dy, 0 - range), MinOfRows(costs, of, range, dy + 1))
  }

  function CostTo(costs: map<Position, nat>, goal: Goal): Option<nat> {
    match goal
    case AtTile(tile) => if tile in costs then Some(costs[tile]) else None
    case Within(of, range) => MinOfRows(costs, of, range, 0 - range)
  }

  // `r` is the least cost over the tiles of `costs` that `p` picks out, if there is one.
  ghost predicate IsMinimum(costs: map<Position, nat>, p: Position -> bool, r: Option<nat>) {
    && (r.Some? ==> exists pos :: pos in costs && p(pos) && costs[pos] == r.value)
    && (forall pos :: pos in costs && p(pos) ==> r.Some? && r.value <= costs[pos])
  }

  ghost function InRow(of: Position, range: U16, dy: int, dx: int): Position -> bool {
    (pos: Position) => pos.z == of.z && pos.y == of.y + dy && dx <= pos.x - of.x <= range
  }

  ghost function InRows(of: Position, range: U16, dy: int): Position -> bool {
    (pos: Position) => pos.z == of.z && dy <= pos.y - of.y <= range && 0 - range <= pos.x - of.x <= range
  }

  lemma {:induction false} RowMinimum(costs: map<Position, nat>, of: Position, range: U16, dy: int, dx: int)
    ensures IsMinimum(costs, InRow(of, range, dy, dx), MinOfRow(costs, of, range, dy, dx))
    decreases range - dx
  {
    if dx <= range {
      RowMinimum(costs, of, range, dy, dx + 1);
      forall pos | InRow(of, range, dy, dx)(pos) && !InRow(of, range, dy, dx + 1)(pos)
        ensures CheckedOffset(of, dx, dy) == Some(pos) {}
      assert forall pos :: InRow(of, range, dy, dx + 1)(pos) ==> InRow(of, range, dy, dx)(pos);
      var here := CheckedOffset(of, dx, dy);
      assert here.Some? ==> InRow(of, range, dy, dx)(here.value);
    }
  }

  lemma {:induction false} RowsMinimum(costs: map<Position, nat>, of: Position, range: U16, dy: int)
    ensures IsMinimum(costs, InRows(of, range, dy), MinOfRows(costs, of, range, dy))
    decreases range - dy
  {
    if dy <= range {
      RowsMinimum(costs, of, range, dy + 1);
      RowMinimum(costs, of, range, dy, 0 - range);
      assert forall pos :: InRows(of, range, dy)(pos) <==>
               (InRow(of, range, dy, 0 - range)(pos) || InRows(of, range, dy + 1)(pos));
    }
  }

  // The offset square, clipped to the map, covers exactly the tiles that meet the goal.
  lemma CostToIsTheCheapestMeetingTile(costs: map<Position, nat>, goal: Goal)
    ensures IsMinimum(costs, pos => GoalIsMet(goal, pos), CostTo(costs, goal))
  {
    match goal
    case AtTile(tile) =>
    case Within(of, range) =>
      RowsMinimum(costs, of, range, 0 - range);
      forall pos: Position ensures GoalIsMet(goal, pos) <==> InRows(of, range, 0 - range)(pos) {}
  }
}
