/** Filling a corpse with what its creature carried, stack by stack, until it is full. */
module Loot {
  import opened Wrappers
  import opened Positions
  import opened Items

  // A fresh name for every item put in.
  type Names = nat -> Guid

  // The corpse has no room, or no capacity to have any.
  predicate FullUp(corpse: Item) {
    corpse.config.capacity.None? || |Inside(corpse)| >= Capacity(corpse)
  }

  function With(corpse: Item, item: Item): Item {
    if corpse.Holder? then corpse.(inside := corpse.inside + [item]) else corpse
  }

  // The amounts of the stacks a roll is cut into: full ones and then the rest, or, of what
  // does not stack, one at a time.
  function Portions(stacks: bool, amount: nat): seq<U8>
    decreases amount
  {
    if amount == 0 then []
    else if !stacks then [1] + Portions(stacks, amount - 1)
    else if amount < MAX_STACK then [amount]
    else [MAX_STACK] + Portions(stacks, amount - MAX_STACK)
  }

  // One portion after the other, up to and including the one that fills the corpse.
  function Filled(corpse: Item, config: ItemConfig, portions: seq<U8>, names: Names, next: nat): (Item, bool)
    decreases portions
  {
    if portions == [] then (corpse, false)
    else
      var c := With(corpse, Solid(names(next), config, portions[0]));
      if FullUp(c) then (c, true) else Filled(c, config, portions[1..], names, next + 1)
  }

  method AddContent(corpse: Item, config: ItemConfig, amount: U8, name: Guid) returns (c: Item, full: bool)
    ensures c == With(corpse, Solid(name, config, amount)) && full == FullUp(c)
  {
    c := corpse;
    if corpse.Holder? { c := corpse.(inside := corpse.inside + [Solid(name, config, amount)]); }
    full := c.config.capacity.None? || SaturatingCapacity(c) == 0;
  }

  function SaturatingCapacity(c: Item): nat { if |Inside(c)| > Capacity(c) then 0 else Capacity(c) - |Inside(c)| }

  method AddToCorpse(corpse: Item, config: ItemConfig, amount: U32, names: Names) returns (c: Item, full: bool)
    ensures (c, full) == Filled(corpse, config, Portions(Cumulative in config.flags, amount), names, 0)
  {
    c := corpse;
    if Cumulative in config.flags {
      var stacks, rest := amount / MAX_STACK, amount % MAX_STACK;
      var i: int := 0;
      while i < stacks
        invariant 0 <= i <= stacks
        invariant Filled(c, config, Portions(true, amount - i * MAX_STACK), names, i)
                  == Filled(corpse, config, Portions(true, amount), names, 0)
      {
        assert amount - i * MAX_STACK >= MAX_STACK;
        assert Portions(true, amount - i * MAX_STACK)[1..] == Portions(true, amount - (i + 1) * MAX_STACK);
        c, full := AddContent(c, config, MAX_STACK, names(i));
        if full { return; }
        i := i + 1;
      }
      assert amount - i * MAX_STACK == rest;
      if rest > 0 {
        assert Portions(true, rest)[1..] == [];
        c, full := AddContent(c, config, rest, names(i));
        if full { return; }
      }
    } else {
      var i: int := 0;
      while i < amount
        invariant 0 <= i <= amount
        invariant Filled(c, config, Portions(false, amount - i), names, i)
                  == Filled(corpse, config, Portions(false, amount), names, 0)
      {
        assert Portions(false, amount - i)[1..] == Portions(false, amount - (i + 1));
        c, full := AddContent(c, config, 1, names(i));
        if full { return; }
        i := i + 1;
      }
    }
    full := false;
  }

  function UnitsOf(portions: seq<U8>): nat {
    if portions == [] then 0 else portions[0] + UnitsOf(portions[1..])
  }

  // A roll is cut without loss: what stacks into hundreds, and one stack of the rest; anything
  // else into single items.
  lemma {:induction false} PortionsAreTheRoll(stacks: bool, amount: nat)
    ensures UnitsOf(Portions(stacks, amount)) == amount
    ensures forall i :: 0 <= i < |Portions(stacks, amount)| ==> 1 <= Portions(stacks, amount)[i] <= 100
    ensures forall i :: 0 <= i < |Portions(stacks, amount)| - 1 && stacks ==> Portions(stacks, amount)[i] == 100
    ensures forall i :: 0 <= i < |Portions(stacks, amount)| && !stacks ==> Portions(stacks, amount)[i] == 1
    decreases amount
  {
    if amount > 0 {
      var first := if !stacks then 1 else Min(amount, MAX_STACK);
      if amount > first || !stacks { PortionsAreTheRoll(stacks, amount - first); }
      assert Portions(stacks, amount)[1..] == Portions(stacks, amount - first);
    }
  }

  // ---------------------------------------------------------------- what fits

  // How many stacks more a corpse takes before it says that it is full. It says so after one
  // when it has no capacity, or none left.
  function Places(corpse: Item): nat {
    if FullUp(corpse) then 1 else Capacity(corpse) - |Inside(corpse)|
  }

  function StacksOf(config: ItemConfig, portions: seq<U8>, names: Names, next: nat): (r: seq<Item>)
    ensures |r| == |portions|
  {
    if portions == [] then []
    else [Solid(names(next), config, portions[0])] + StacksOf(config, portions[1..], names, next + 1)
  }

  lemma FirstOfTheStacks(config: ItemConfig, portions: seq<U8>, n: nat, names: Names, next: nat)
    requires 0 < n <= |portions|
    ensures StacksOf(config, portions[..n], names, next)
            == [Solid(names(next), config, portions[0])] + StacksOf(config, portions[1..][..n - 1], names, next + 1)
  {
    assert portions[..n][1..] == portions[1..][..n - 1];
  }

  lemma OnePlaceIsTaken(corpse: Item, item: Item)
    requires corpse.Holder?
    ensures var c := With(corpse, item);
            if FullUp(c) then Places(corpse) == 1 else Places(corpse) == Places(c) + 1
  {
  }

  // Of the portions of a roll, the corpse holds as many as it has places for, and drops the
  // others; it says it is full exactly when there are as many as that.
  lemma {:induction false} CorpseTakesItsPlaces(corpse: Item, config: ItemConfig, portions: seq<U8>, names: Names,
                                                next: nat)
    requires corpse.Holder?
    ensures var (c, full) := Filled(corpse, config, portions, names, next);
            var n := Min(|portions|, Places(corpse));
            && c == corpse.(inside := corpse.inside + StacksOf(config, portions[..n], names, next))
            && (full <==> |portions| >= Places(corpse))
    decreases portions
  {
    if portions == [] {
      assert corpse.inside + [] == corpse.inside;
    } else {
      var n := Min(|portions|, Places(corpse));
      var first := Solid(names(next), config, portions[0]);
      var c := With(corpse, first);
      var rest := StacksOf(config, portions[1..][..n - 1], names, next + 1);
      OnePlaceIsTaken(corpse, first);
      FirstOfTheStacks(config, portions, n, names, next);
      assert c.inside + rest == corpse.inside + ([first] + rest);
      if FullUp(c) {
        assert rest == [];
      } else {
        CorpseTakesItsPlaces(c, config, portions[1..], names, next + 1);
      }
    }
  }

  // The whole roll is in the corpse exactly when it has a place for every portion: a corpse
  // without a capacity keeps the first, and drops the rest.
  lemma NothingIsDroppedIff(corpse: Item, config: ItemConfig, portions: seq<U8>, names: Names)
    requires corpse.Holder?
    ensures var c := Filled(corpse, config, portions, names, 0).0;
            && (c == corpse.(inside := corpse.inside + StacksOf(config, portions, names, 0)) <==>
                |portions| <= Places(corpse))
            && (corpse.config.capacity.None? && portions != [] ==>
                  c == corpse.(inside := corpse.inside + [Solid(names(0), config, portions[0])]))
  {
    CorpseTakesItsPlaces(corpse, config, portions, names, 0);
    if |portions| <= Places(corpse) {
      assert portions[..|portions|] == portions;
    } else {
      assert |Filled(corpse, config, portions, names, 0).0.inside| == |corpse.inside| + Places(corpse);
      assert |StacksOf(config, portions, names, 0)| == |portions|;
    }
    if portions != [] { assert StacksOf(config, portions[..1], names, 0) == [Solid(names(0), config, portions[0])]; }
  }

  // ---------------------------------------------------------------- the loot table

  // What one entry of a creature's table came to.
  datatype Roll = Roll(config: ItemConfig, amount: U32)

  // The entries in order, up to and including the one that fills the corpse.
  function Looted(corpse: Item, rolls: seq<Roll>, names: nat -> Names, entry: nat): Item
    decreases rolls
  {
    if rolls == [] then corpse
    else
      var (c, full) := Filled(corpse, rolls[0].config, Portions(Cumulative in rolls[0].config.flags, rolls[0].amount),
                              names(entry), 0);
      if full then c else Looted(c, rolls[1..], names, entry + 1)
  }

  method RollCreatureLoot(corpse: Item, rolls: seq<Roll>, names: nat -> Names) returns (c: Item)
    ensures c == Looted(corpse, rolls, names, 0)
  {
    c := corpse;
    var i := 0;
    while i < |rolls|
      invariant 0 <= i <= |rolls|
      invariant Looted(c, rolls[i..], names, i) == Looted(corpse, rolls, names, 0)
    {
      assert rolls[i..][1..] == rolls[i + 1..];
      if rolls[i].amount > 0 {
        var full;
        c, full := AddToCorpse(c, rolls[i].config, rolls[i].amount, names(i));
        if full { return; }
      }
      i := i + 1;
    }
  }

  // The stacks of all entries, one entry after the other.
  function AllStacks(rolls: seq<Roll>, names: nat -> Names, entry: nat): seq<Item>
    decreases rolls
  {
    if rolls == [] then []
    else
      StacksOf(rolls[0].config, Portions(Cumulative in rolls[0].config.flags, rolls[0].amount), names(entry), 0)
      + AllStacks(rolls[1..], names, entry + 1)
  }

  lemma {:induction false} TakesFromBoth<T>(a: seq<T>, b: seq<T>, n: nat)
    requires n <= |a| + |b|
    ensures (a + b)[..n] == if n <= |a| then a[..n] else a + b[..n - |a|]
  {
  }

  lemma FirstStacks(config: ItemConfig, portions: seq<U8>, n: nat, names: Names, next: nat)
    requires n <= |portions|
    ensures StacksOf(config, portions[..n], names, next) == StacksOf(config, portions, names, next)[..n]
    decreases portions
  {
    if n > 0 {
      FirstOfTheStacks(config, portions, n, names, next);
      FirstStacks(config, portions[1..], n - 1, names, next + 1);
    }
  }

  // Of all the stacks of the table, the corpse takes as many as it has places, from the first on,
  // and drops the others: never more than the capacity of a corpse that started with room, and
  // one stack where there is no capacity.
  lemma {:induction false} LootTakesItsPlaces(corpse: Item, rolls: seq<Roll>, names: nat -> Names, entry: nat)
    requires corpse.Holder?
    ensures var all := AllStacks(rolls, names, entry);
            Looted(corpse, rolls, names, entry)
            == corpse.(inside := corpse.inside + all[..Min(|all|, Places(corpse))])
    decreases rolls
  {
    if rolls == [] {
      assert corpse.inside + [] == corpse.inside;
    } else {
      var portions := Portions(Cumulative in rolls[0].config.flags, rolls[0].amount);
      var stacks := StacksOf(rolls[0].config, portions, names(entry), 0);
      var rest := AllStacks(rolls[1..], names, entry + 1);
      var n := Min(|portions|, Places(corpse));
      var (c, full) := Filled(corpse, rolls[0].config, portions, names(entry), 0);
      CorpseTakesItsPlaces(corpse, rolls[0].config, portions, names(entry), 0);
      FirstStacks(rolls[0].config, portions, n, names(entry), 0);
      TakesFromBoth(stacks, rest, Min(|stacks + rest|, Places(corpse)));
      assert Looted(corpse, rolls, names, entry) == if full then c else Looted(c, rolls[1..], names, entry + 1);
      if !full {
        assert stacks[..n] == stacks;
        LootTakesItsPlaces(c, rolls[1..], names, entry + 1);
        PlacesLeft(corpse, c, stacks);
        Regroup(corpse.inside, stacks, rest[..Min(|rest|, Places(c))]);
      }
    }
  }

  lemma Regroup<T>(a: seq<T>, b: seq<T>, c: seq<T>)
    ensures a + b + c == a + (b + c)
  {
  }

  lemma PlacesLeft(corpse: Item, c: Item, stacks: seq<Item>)
    requires corpse.Holder? && c == corpse.(inside := corpse.inside + stacks) && |stacks| < Places(corpse)
    ensures Places(c) == Places(corpse) - |stacks|
  {
  }
}
