/** The line a missile or a thrown item travels, and when something on it blocks sight. */
module LineOfSight {
  import opened Wrappers
  import opened Positions

  // A cast to 16 bits keeps the low ones.
  function AsU16(v: int): U16 { v % 0x1_0000 }

  // The i-th point of the line, in closed form; `/` rounds down because `da` is positive.
  function LinePoint(a0: int, b0: int, a1: int, b1: int, i: int): (int, int)
    requires a0 < a1
  {
    (a0 + i, b0 + (i * (b1 - b0)) / (a1 - a0))
  }

  lemma DivisionIsUnique(n: int, d: int, q: int, r: int)
    requires d > 0 && n == q * d + r && 0 <= r < d
    ensures n / d == q
  {
    var q', r' := n / d, n % d;
    assert n == q' * d + r';
    assert (q - q') * d == r' - r;
    assert q - q' >= 1 ==> (q - q') * d >= d;
    assert q - q' <= -1 ==> (q - q') * d <= -d;
  }

  // The rounded-down slope stays between the two ends.
  lemma SlopeStaysBetween(i: int, da: int, db: int)
    requires 0 <= i <= da && da > 0
    ensures Min(0, db) <= (i * db) / da <= Max(0, db)
  {
    ProductStaysBetween(i, da, db);
    FloorStaysBetween(i * db, da, db);
  }

  lemma ProductStaysBetween(i: int, da: int, db: int)
    requires 0 <= i <= da
    ensures db >= 0 ==> 0 <= i * db <= da * db
    ensures db <= 0 ==> da * db <= i * db <= 0
  {
  }

  lemma FloorStaysBetween(n: int, da: int, db: int)
    requires da > 0
    requires db >= 0 ==> 0 <= n <= da * db
    requires db <= 0 ==> da * db <= n <= 0
    ensures Min(0, db) <= n / da <= Max(0, db)
  {
    QuotientBounds(n, da, db);
    QuotientBounds(n, da, 0);
  }

  // Dividing by a positive number keeps order with the multiples of it.
  lemma QuotientBounds(n: int, d: int, k: int)
    requires d > 0
    ensures n >= d * k ==> n / d >= k
    ensures n <= d * k ==> n / d <= k
  {
    var q, r := n / d, n % d;
    assert n == d * q + r;
    assert d * (q - k) == d * q - d * k;
    if q - k <= -1 { assert d * (q - k) <= -d; }
    if q - k >= 1 { assert d * (q - k) >= d; }
  }

  // In column `i` the line is where its slope has come to, rounded down.
  lemma PointIsOnTheLine(a0: int, b0: int, a1: int, b1: int, i: int)
    requires a0 < a1
    ensures var (a, b) := LinePoint(a0, b0, a1, b1, i);
            a == a0 + i && (b - b0) * (a1 - a0) <= i * (b1 - b0) < (b - b0) * (a1 - a0) + (a1 - a0)
  {
    FloorTimes(i * (b1 - b0), a1 - a0);
  }

  lemma FloorTimes(n: int, d: int)
    requires d > 0
    ensures (n / d) * d <= n < (n / d) * d + d
  {
  }

  function PointAt(a0: U16, b0: U16, a1: U16, b1: U16, i: int): (p: (U16, U16))
    requires a0 < a1 && 0 <= i <= a1 - a0
    ensures p == LinePoint(a0, b0, a1, b1, i)
    ensures Min(b0, b1) <= p.1 <= Max(b0, b1)
  {
    SlopeStaysBetween(i, a1 - a0, b1 - b0);
    LinePoint(a0, b0, a1, b1, i)
  }

  // The tiles strictly between the two ends.
  function LineTiles(a0: U16, b0: U16, a1: U16, b1: U16): seq<(U16, U16)>
    requires a0 < a1
  {
    seq(a1 - a0 - 1, k requires 0 <= k < a1 - a0 - 1 => PointAt(a0, b0, a1, b1, k + 1))
  }

  // One column further: `q` and `r` again hold the floor and the remainder of the slope.
  lemma OneColumn(i: int, da: int, db: int, q: int, r: int, q': int, r': int)
    requires 0 <= r < da && i * db == q * da + r
    requires (q', r') == (q, r + db) || (q', r') == (q - 1, r + db + da) || (q', r') == (q + 1, r + db - da)
    requires 0 <= r' < da
    ensures (i + 1) * db == q' * da + r'
    ensures ((i + 1) * db) / da == q'
  {
    assert (i + 1) * db == i * db + db;
    assert (q - 1) * da == q * da - da && (q + 1) * da == q * da + da;
    DivisionIsUnique((i + 1) * db, da, q', r');
  }

  // The error accumulator: `q` whole steps taken on the minor axis and `r` of the next one,
  // corrected at most once per column because the line is no steeper than the diagonal.
  method WalkAxis(a0: U16, b0: U16, a1: U16, b1: U16) returns (visited: seq<(U16, U16)>)
    requires a0 < a1 && Abs(b1 - b0) <= a1 - a0
    ensures visited == LineTiles(a0, b0, a1, b1)
  {
    var da: int, db: int := a1 - a0, b1 - b0;
    var q, r := 0, 0;
    visited := [];
    var a: int := a0 + 1;
    while a < a1
      invariant a0 < a <= a1 && 0 <= r < da
      invariant (a - 1 - a0) * db == q * da + r
      invariant visited == LineTiles(a0, b0, a1, b1)[..a - 1 - a0]
    {
      ghost var q0, r0 := q, r;
      r := r + db;
      if r < 0 {
        r := r + da;
        q := q - 1;
      } else if r >= da {
        r := r - da;
        q := q + 1;
      }
      OneColumn(a - 1 - a0, da, db, q0, r0, q, r);
      assert PointAt(a0, b0, a1, b1, a - a0) == (a, b0 + q);
      visited := visited + [(AsU16(a), AsU16(b0 + q))];
      a := a + 1;
    }
  }

  // ---------------------------------------------------------------- sight

  type Sight = Position -> bool

  // The tiles a sight line crosses: walked along the longer axis, from its lower end.
  function Crossed(from: Position, to: Position, z: U8): seq<Position> {
    var (dx, dy) := (to.x - from.x, to.y - from.y);
    if Abs(dy) > Abs(dx) then
      var line := if dy > 0 then LineTiles(from.y, from.x, to.y, to.x) else LineTiles(to.y, to.x, from.y, from.x);
      seq(|line|, i requires 0 <= i < |line| => Position(line[i].1, line[i].0, z))
    else if dx != 0 then
      var line := if dx > 0 then LineTiles(from.x, from.y, to.x, to.y) else LineTiles(to.x, to.y, from.x, from.y);
      seq(|line|, i requires 0 <= i < |line| => Position(line[i].0, line[i].1, z))
    else []
  }

  // The line from (a0, b0) to (a1, b1) passes through (a, b): its height there, rounded down.
  ghost predicate IsPassed(a0: int, b0: int, a1: int, b1: int, a: int, b: int) {
    (b - b0) * (a1 - a0) <= (a - a0) * (b1 - b0) < (b - b0 + 1) * (a1 - a0)
  }

  // The i-th tile between the two ends: in the i-th column after the lower end - or row, when
  // the line is steeper - the one the line passes through.
  ghost predicate IsBetween(from: Position, to: Position, z: U8, i: nat, p: Position) {
    && p.z == z
    && if Abs(to.y - from.y) > Abs(to.x - from.x) then
         var (low, high) := if from.y < to.y then (from, to) else (to, from);
         p.y == low.y + 1 + i && IsPassed(low.y, low.x, high.y, high.x, p.y, p.x)
       else
         var (low, high) := if from.x < to.x then (from, to) else (to, from);
         p.x == low.x + 1 + i && IsPassed(low.x, low.y, high.x, high.y, p.x, p.y)
  }

  lemma LineTilesArePassed(a0: U16, b0: U16, a1: U16, b1: U16, i: nat)
    requires a0 < a1 && i < |LineTiles(a0, b0, a1, b1)|
    ensures |LineTiles(a0, b0, a1, b1)| == a1 - a0 - 1
    ensures var (a, b) := LineTiles(a0, b0, a1, b1)[i]; a == a0 + 1 + i && IsPassed(a0, b0, a1, b1, a, b)
  {
    PointIsOnTheLine(a0, b0, a1, b1, i + 1);
  }

  lemma CrossesOnTheLine(from: Position, to: Position, z: U8, i: nat)
    requires i < |Crossed(from, to, z)|
    ensures IsBetween(from, to, z, i, Crossed(from, to, z)[i])
  {
    if Abs(to.y - from.y) > Abs(to.x - from.x) {
      var (low, high) := if from.y < to.y then (from, to) else (to, from);
      LineTilesArePassed(low.y, low.x, high.y, high.x, i);
    } else {
      var (low, high) := if from.x < to.x then (from, to) else (to, from);
      LineTilesArePassed(low.x, low.y, high.x, high.y, i);
    }
  }

  // One tile in every column strictly between the two ends, and that one on the line.
  lemma CrossesEachColumnOnce(from: Position, to: Position, z: U8)
    ensures |Crossed(from, to, z)| == Max(Distance(from, to) as int - 1, 0)
    ensures forall i :: 0 <= i < |Crossed(from, to, z)| ==> IsBetween(from, to, z, i, Crossed(from, to, z)[i])
  {
    forall i | 0 <= i < |Crossed(from, to, z)| ensures IsBetween(from, to, z, i, Crossed(from, to, z)[i]) {
      CrossesOnTheLine(from, to, z, i);
    }
  }

  ghost predicate LineClear(sight: Sight, from: Position, to: Position, z: U8) {
    forall p :: p in Crossed(from, to, z) ==> sight(p)
  }

  // The test meant to skip the walk for neighbours compares signed differences.
  predicate Shortcut(from: Position, to: Position) {
    to.x - from.x <= 1 && to.y - from.y <= 1
  }

  ghost predicate SightClear(sight: Sight, from: Position, to: Position, z: U8) {
    Shortcut(from, to) || LineClear(sight, from, to, z)
  }

  method IsSightClear(sight: Sight, from: Position, to: Position, z: U8) returns (clear: bool)
    ensures clear <==> SightClear(sight, from, to, z)
  {
    var dx: int, dy: int := to.x - from.x, to.y - from.y;
    if dx <= 1 && dy <= 1 {
      return true;
    }
    var steep := Abs(dy) > Abs(dx);
    var (a0, b0, a1, b1) :=
      if steep then (if dy > 0 then (from.y, from.x, to.y, to.x) else (to.y, to.x, from.y, from.x))
      else (if dx > 0 then (from.x, from.y, to.x, to.y) else (to.x, to.y, from.x, from.y));
    var line := WalkAxis(a0, b0, a1, b1);
    ghost var crossed := Crossed(from, to, z);
    assert |crossed| == |line|;
    var i := 0;
    while i < |line|
      invariant 0 <= i <= |line|
      invariant forall j :: 0 <= j < i ==> sight(crossed[j])
    {
      var (a, b) := line[i];
      var p := if steep then Position(b, a, z) else Position(a, b, z);
      assert p == crossed[i];
      if !sight(p) {
        return false;
      }
      i := i + 1;
    }
    return true;
  }

  predicate Adjacent(a: Position, b: Position) { Distance(a, b) <= 1 }

  // The line itself has no direction; only the shortcut does.
  lemma LineIsSymmetric(from: Position, to: Position, z: U8)
    ensures Crossed(from, to, z) == Crossed(to, from, z)
  {
  }

  // Whatever lies between, sight is the same both ways exactly when the shortcut decides
  // both ways alike: for neighbours, and for pairs two or more apart on both axes that lie
  // to each other's north-east and south-west.
  lemma SightIsSymmetricIff(from: Position, to: Position, z: U8)
    ensures (forall sight: Sight :: SightClear(sight, from, to, z) == SightClear(sight, to, from, z))
            <==> Shortcut(from, to) == Shortcut(to, from)
    ensures Shortcut(from, to) && Shortcut(to, from) <==> Adjacent(from, to)
  {
    LineIsSymmetric(from, to, z);
    if Shortcut(from, to) != Shortcut(to, from) {
      var dark: Sight := p => false;
      assert Crossed(from, to, z) != [];
      assert Crossed(from, to, z)[0] in Crossed(from, to, z);
      assert SightClear(dark, from, to, z) != SightClear(dark, to, from, z);
    }
  }

  // The code meets its purpose - to see a target unless something on the line blocks it -
  // exactly when the shortcut is not taken or has nothing to skip.
  lemma SightMeetsTheLineIff(from: Position, to: Position, z: U8)
    ensures (forall sight: Sight :: SightClear(sight, from, to, z) <==> LineClear(sight, from, to, z))
            <==> (!Shortcut(from, to) || Adjacent(from, to))
  {
    if Shortcut(from, to) && !Adjacent(from, to) {
      var dark: Sight := p => false;
      assert Crossed(from, to, z)[0] in Crossed(from, to, z);
      assert SightClear(dark, from, to, z) && !LineClear(dark, from, to, z);
    }
  }

  // A wall between a thrower and a target ten tiles to the west does not stop the throw.
  lemma SightPassesWallsToTheWest(sight: Sight)
    requires !sight(Position(15, 10, 7))
    ensures SightClear(sight, Position(20, 10, 7), Position(10, 10, 7), 7)
    ensures !SightClear(sight, Position(10, 10, 7), Position(20, 10, 7), 7)
  {
    var line := LineTiles(10, 10, 20, 10);
    assert line[4] == (15, 10);
    assert Crossed(Position(10, 10, 7), Position(20, 10, 7), 7)[4] == Position(15, 10, 7);
  }

  // ---------------------------------------------------------------- throwing

  // Throws never cross between the surface (floors 0 to 7) and the underground; a throw to
  // another floor is sighted on the upper of the two, and one to a deeper floor needs a
  // tile below every floor in between.
  ghost predicate Throwable(isTile: Position -> bool, sight: Sight, from: Position, to: Position, sameFloor: bool) {
    && (from.z > 7 <==> to.z > 7)
    && (sameFloor ==> from.z == to.z)
    && (forall z: U8 :: from.z < z <= to.z ==> isTile(Position(to.x, to.y, z)))
    && SightClear(sight, from, to, if from.z > to.z then to.z else from.z)
  }

  method CanThrow(isTile: Position -> bool, sight: Sight, from: Position, to: Position, sameFloor: bool)
    returns (ok: bool)
    ensures ok <==> Throwable(isTile, sight, from, to, sameFloor)
    ensures ok <==>
              && (from.z <= 7 <==> to.z <= 7) && (sameFloor ==> from.z == to.z)
              && (forall z: U8 :: from.z + 1 <= z <= to.z ==> isTile(Position(to.x, to.y, z)))
              && SightClear(sight, from, to, Min(from.z, to.z))
  {
    if (from.z > 7 && to.z < 8) || (from.z < 8 && to.z > 7) { return false; }
    if from.z != to.z && sameFloor { return false; }
    var z: int := from.z + 1;
    while z <= to.z
      invariant from.z + 1 <= z
      invariant forall y: U8 :: from.z < y < z ==> isTile(Position(to.x, to.y, y)) || y > to.z
    {
      if !isTile(Position(to.x, to.y, z)) { return false; }
      z := z + 1;
    }
    ok := IsSightClear(sight, from, to, if from.z > to.z then to.z else from.z);
  }
}
