/** The blood a wound leaves: one pool a tile, straight on the ground. */
module Blood {
  import opened Wrappers
  import opened Positions
  import opened Items

  // How many items of the tile, from the bottom, are ground.
  function GroundDepth(items: seq<Item>): (d: nat)
    ensures d <= |items|
  {
    if items != [] && Ground in items[0].config.flags then 1 + GroundDepth(items[1..]) else 0
  }

  function FirstPool(items: seq<Item>): Option<Guid> {
    if items == [] then None
    else if LiquidPool in items[0].config.flags then Some(items[0].guid)
    else FirstPool(items[1..])
  }

  // The new pool goes straight onto the ground, and the one that was there dries up.
  function BloodOn(items: seq<Item>, pool: Item): seq<Item> {
    var placed := Spliced(items, GroundDepth(items), pool);
    match FirstPool(items)
    case None => placed
    case Some(g) => match TakeFrom(placed, g, 1, g) case Some(t) => t.rest case None => placed
  }

  function Pools(items: seq<Item>): nat {
    if items == [] then 0 else (if LiquidPool in items[0].config.flags then 1 else 0) + Pools(items[1..])
  }

  lemma {:induction false} PoolsAppend(a: seq<Item>, b: seq<Item>)
    ensures Pools(a + b) == Pools(a) + Pools(b)
  {
    if a == [] {
      assert a + b == b;
    } else {
      assert (a + b)[1..] == a[1..] + b;
      PoolsAppend(a[1..], b);
    }
  }

  lemma {:induction false} FirstPoolIs(items: seq<Item>) returns (i: nat)
    requires FirstPool(items).Some?
    ensures i < |items| && LiquidPool in items[i].config.flags && items[i].guid == FirstPool(items).value
  {
    if LiquidPool in items[0].config.flags {
      i := 0;
    } else {
      var j := FirstPoolIs(items[1..]);
      i := j + 1;
    }
  }

  lemma {:induction false} NoPoolNone(items: seq<Item>)
    requires FirstPool(items).None?
    ensures Pools(items) == 0
  {
    if items != [] { NoPoolNone(items[1..]); }
  }

  lemma {:induction false} PoolsWithout(items: seq<Item>, i: nat)
    requires i < |items| && LiquidPool in items[i].config.flags
    ensures Pools(items) == Pools(Without(items, i)) + 1
  {
    SplitAt(items, i);
    PoolsAppend(items[..i] + [items[i]], items[i + 1..]);
    PoolsAppend(items[..i], [items[i]]);
    PoolsAppend(items[..i], items[i + 1..]);
    assert [items[i]][1..] == [];
  }

  lemma {:induction false} PoolsSpliced(items: seq<Item>, at: nat, pool: Item)
    requires at <= |items| && LiquidPool in pool.config.flags
    ensures Pools(Spliced(items, at, pool)) == Pools(items) + 1
  {
    var (a, b) := (items[..at], items[at..]);
    PoolsAppend(a + [pool], b);
    PoolsAppend(a, [pool]);
    PoolsAppend(a, b);
    assert a + b == items && [pool][1..] == [];
  }

  // Where the item at `i` is once another one is put in at `d`.
  lemma {:induction false} MovedBy(items: seq<Item>, d: nat, x: Item, i: nat)
    requires d <= |items| && i < |items|
    ensures Spliced(items, d, x)[if i < d then i else i + 1] == items[i]
  {
  }

  lemma {:induction false} PoolReplaced(items: seq<Item>, d: nat, pool: Item, i: nat)
    requires d <= |items| && i < |items| && Unique(TallyAll(items) + Tally(pool))
    requires LiquidPool in pool.config.flags && LiquidPool in items[i].config.flags && items[i].amount == 1
    ensures var (placed, g) := (Spliced(items, d, pool), items[i].guid);
            TakeFrom(placed, g, 1, g).Some? && Pools(TakeFrom(placed, g, 1, g).value.rest) == Pools(items)
  {
    var placed := Spliced(items, d, pool);
    var j := if i < d then i else i + 1;
    MovedBy(items, d, pool, i);
    TallySplice(items, d, pool);
    PoolsSpliced(items, d, pool);
    IndexIsUnique(placed, j);
    PoolsWithout(placed, j);
  }

  // Everything below `d` is ground, and what lies there is not.
  ghost predicate IsGroundTo(items: seq<Item>, d: nat) {
    && d <= |items| && (forall i :: 0 <= i < d ==> Ground in items[i].config.flags)
    && (d < |items| ==> Ground !in items[d].config.flags)
  }

  lemma {:induction false} GroundEndsThere(items: seq<Item>)
    ensures IsGroundTo(items, GroundDepth(items))
  {
    if items != [] { GroundEndsThere(items[1..]); }
  }

  ghost predicate IsFirstPool(items: seq<Item>, i: nat) {
    && i < |items| && LiquidPool in items[i].config.flags
    && forall j :: 0 <= j < i ==> LiquidPool !in items[j].config.flags
  }

  lemma {:induction false} FirstPoolIsThat(items: seq<Item>, i: nat)
    requires IsFirstPool(items, i)
    ensures FirstPool(items) == Some(items[i].guid)
  {
    if i > 0 { FirstPoolIsThat(items[1..], i - 1); }
  }

  lemma {:induction false} NoPoolIsFirst(items: seq<Item>)
    requires forall i :: 0 <= i < |items| ==> LiquidPool !in items[i].config.flags
    ensures FirstPool(items).None?
  {
    if items != [] { NoPoolIsFirst(items[1..]); }
  }

  // The pool comes to lie on the ground and beneath everything else; the first pool there was is
  // gone, and nothing else moves.
  lemma {:induction false} BloodLiesOnTheGround(items: seq<Item>, pool: Item, d: nat)
    requires IsGroundTo(items, d) && Unique(TallyAll(items) + Tally(pool))
    requires forall i :: 0 <= i < |items| && LiquidPool in items[i].config.flags ==> items[i].amount == 1
    ensures (forall i :: 0 <= i < |items| ==> LiquidPool !in items[i].config.flags) ==>
              BloodOn(items, pool) == items[..d] + [pool] + items[d..]
    ensures forall i: nat :: IsFirstPool(items, i) ==>
              BloodOn(items, pool) == if i < d then items[..i] + items[i + 1..d] + [pool] + items[d..]
                                      else items[..d] + [pool] + items[d..i] + items[i + 1..]
  {
    GroundEndsThere(items);
    assert d == GroundDepth(items);
    if forall i :: 0 <= i < |items| ==> LiquidPool !in items[i].config.flags { NoPoolIsFirst(items); }
    forall i: nat | IsFirstPool(items, i)
      ensures BloodOn(items, pool) == if i < d then items[..i] + items[i + 1..d] + [pool] + items[d..]
                                      else items[..d] + [pool] + items[d..i] + items[i + 1..]
    {
      FirstPoolIsThat(items, i);
      OldPoolGoes(items, d, pool, i);
    }
  }

  lemma {:induction false} OldPoolGoes(items: seq<Item>, d: nat, pool: Item, i: nat)
    requires d <= |items| && i < |items| && items[i].amount == 1 && Unique(TallyAll(items) + Tally(pool))
    ensures var t := TakeFrom(Spliced(items, d, pool), items[i].guid, 1, items[i].guid);
            && t.Some?
            && t.value.rest == if i < d then items[..i] + items[i + 1..d] + [pool] + items[d..]
                               else items[..d] + [pool] + items[d..i] + items[i + 1..]
  {
    var placed := Spliced(items, d, pool);
    var j := if i < d then i else i + 1;
    MovedBy(items, d, pool, i);
    TallySplice(items, d, pool);
    IndexIsUnique(placed, j);
    if i < d { WithoutBefore(items, d, pool, i); } else { WithoutAfter(items, d, pool, i); }
  }

  lemma WithoutBefore(items: seq<Item>, d: nat, x: Item, i: nat)
    requires i < d <= |items|
    ensures Without(Spliced(items, d, x), i) == items[..i] + items[i + 1..d] + [x] + items[d..]
  {
  }

  lemma WithoutAfter(items: seq<Item>, d: nat, x: Item, i: nat)
    requires d <= i < |items|
    ensures Without(Spliced(items, d, x), i + 1) == items[..d] + [x] + items[d..i] + items[i + 1..]
  {
  }

  // However often something bleeds there, a tile that has at most one pool - a whole item,
  // with a name of its own - ends with exactly one.
  lemma {:induction false} BloodDoesNotPileUp(items: seq<Item>, pool: Item)
    requires LiquidPool in pool.config.flags && Pools(items) <= 1 && Unique(TallyAll(items) + Tally(pool))
    requires forall i :: 0 <= i < |items| && LiquidPool in items[i].config.flags ==> items[i].amount == 1
    ensures Pools(BloodOn(items, pool)) == 1
  {
    match FirstPool(items) {
      case None =>
        NoPoolNone(items);
        PoolsSpliced(items, GroundDepth(items), pool);
      case Some(_) =>
        var i := FirstPoolIs(items);
        PoolReplaced(items, GroundDepth(items), pool, i);
        PoolsWithout(items, i);
    }
  }
}
