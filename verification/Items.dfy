/**
 Items and the trees they form: an item owns what is inside it. The operations here are
 the ones that work on a tree wherever it stands - on a tile or in an inventory slot.

 A tree is accounted for by its tally, one multiset that counts the units of every item
 id, the names in use and the total weight; what an operation keeps, adds or takes is then
 one equation.
 */
module Items {
  import opened Wrappers
  import opened Positions

  datatype ItemFlag =
    Ground | Unmove | Unpass | Take | FullBank | Bottom | Cumulative | ContainerFlag | Avoid | AmmoContainer |
    LiquidPool

  datatype ItemConfig = ItemConfig(
    id: U16,
    flags: set<ItemFlag>,
    capacity: Option<U8>,
    weight: Option<U32>,
    slot: Option<InventorySlot>,
    isBow: bool, // a bow or a crossbow
    isAmmo: bool,
    armor: Option<U16>,
    speed: Option<int>,
    defense: Option<U16>,
    extraDefense: Option<int>,
    decay: Option<nat>)

  function StackWeight(config: ItemConfig, amount: nat): nat {
    WeightOfUnits(if config.weight.Some? then config.weight.value else 0, amount)
  }

  function WeightOfUnits(unit: nat, amount: nat): nat { unit * amount }

  lemma WeightSplits(config: ItemConfig, a: nat, b: nat)
    ensures StackWeight(config, a + b) == StackWeight(config, a) + StackWeight(config, b)
  {
    UnitsAdd(if config.weight.Some? then config.weight.value else 0, a, b);
  }

  lemma UnitsAdd(unit: nat, a: nat, b: nat)
    ensures WeightOfUnits(unit, a + b) == WeightOfUnits(unit, a) + WeightOfUnits(unit, b)
  {
  }

  const MAX_STACK: U8 := 100

  // `Solid` has no contents at all; a `Holder` may be empty.
  datatype Item =
    | Solid(guid: Guid, config: ItemConfig, amount: U8)
    | Holder(guid: Guid, config: ItemConfig, amount: U8, inside: seq<Item>)

  function Inside(it: Item): seq<Item> { if it.Holder? then it.inside else [] }

  // ---------------------------------------------------------------- the tally

  datatype Token = Units(id: U16) | Name(guid: Guid) | Weight

  ghost function OwnTally(it: Item): multiset<Token> {
    StackTally(it.guid, it.config.id, it.amount, StackWeight(it.config, it.amount))
  }

  ghost function Tally(it: Item): multiset<Token>
    decreases it, 1
  {
    OwnTally(it) + InsideTally(it)
  }

  ghost function InsideTally(it: Item): multiset<Token>
    decreases it, 0
  {
    if it.Holder? then TallyAll(it.inside) else multiset{}
  }

  ghost function TallyAll(items: seq<Item>): multiset<Token>
    decreases items
  {
    if items == [] then multiset{} else Tally(items[0]) + TallyAll(items[1..])
  }

  ghost predicate Unique(t: multiset<Token>) {
    forall g :: t[Name(g)] <= 1
  }

  // The recursive sum the server computes is the tally's weight.
  function TotalWeight(it: Item): nat
    decreases it, 0
  {
    StackWeight(it.config, it.amount) + (if it.Holder? then WeightOfAll(it.inside) else 0)
  }

  function WeightOfAll(items: seq<Item>): nat
    decreases items
  {
    if items == [] then 0 else TotalWeight(items[0]) + WeightOfAll(items[1..])
  }

  lemma {:induction false} WeightIsTallied(it: Item)
    ensures TotalWeight(it) == Tally(it)[Weight]
    decreases it, 0
  {
    if it.Holder? { WeightsAreTallied(it.inside); }
  }

  lemma {:induction false} WeightsAreTallied(items: seq<Item>)
    ensures WeightOfAll(items) == TallyAll(items)[Weight]
    decreases items
  {
    if items != [] {
      WeightIsTallied(items[0]);
      WeightsAreTallied(items[1..]);
    }
  }

  // Every item of a tree, each before what is inside it.
  ghost function Preorder(it: Item): seq<Item>
    decreases it, 0
  {
    [it] + (if it.Holder? then PreorderAll(it.inside) else [])
  }

  ghost function PreorderAll(items: seq<Item>): seq<Item>
    decreases items
  {
    if items == [] then [] else Preorder(items[0]) + PreorderAll(items[1..])
  }

  // The weight of units alone, each at the weight of its kind, if that has one.
  ghost function UnitsWeigh(items: seq<Item>): nat {
    if items == [] then 0
    else (match items[0].config.weight
          case None => 0
          case Some(unit) => unit * items[0].amount) + UnitsWeigh(items[1..])
  }

  lemma {:induction false} WeighsItsUnits(it: Item)
    ensures TotalWeight(it) == UnitsWeigh(Preorder(it))
    decreases it, 0
  {
    assert Preorder(it)[1..] == if it.Holder? then PreorderAll(it.inside) else [];
    if it.Holder? { WeighTheirUnits(it.inside); }
  }

  lemma {:induction false} WeighTheirUnits(items: seq<Item>)
    ensures WeightOfAll(items) == UnitsWeigh(PreorderAll(items))
    decreases items
  {
    if items != [] {
      WeighsItsUnits(items[0]);
      WeighTheirUnits(items[1..]);
      UnitsWeighTogether(Preorder(items[0]), PreorderAll(items[1..]));
    }
  }

  lemma {:induction false} UnitsWeighTogether(a: seq<Item>, b: seq<Item>)
    ensures UnitsWeigh(a + b) == UnitsWeigh(a) + UnitsWeigh(b)
  {
    if a == [] {
      assert a + b == b;
    } else {
      assert (a + b)[1..] == a[1..] + b;
      UnitsWeighTogether(a[1..], b);
    }
  }

  lemma {:induction false} TallyAppend(a: seq<Item>, b: seq<Item>)
    ensures TallyAll(a + b) == TallyAll(a) + TallyAll(b)
  {
    if a == [] {
      assert a + b == b;
    } else {
      assert (a + b)[1..] == a[1..] + b;
      TallyAppend(a[1..], b);
    }
  }

  function Spliced<T>(items: seq<T>, at: nat, x: T): (r: seq<T>)
    requires at <= |items|
    ensures |r| == |items| + 1 && r[at] == x
  {
    items[..at] + [x] + items[at..]
  }

  function Without<T>(items: seq<T>, at: nat): seq<T>
    requires at < |items|
  {
    items[..at] + items[at + 1..]
  }

  lemma TallyOne(x: Item)
    ensures TallyAll([x]) == Tally(x)
  {
    assert [x][1..] == [];
  }

  lemma TallyAround(a: seq<Item>, x: Item, b: seq<Item>)
    ensures TallyAll(a + [x] + b) == TallyAll(a + b) + Tally(x)
  {
    TallyAppend(a + [x], b);
    TallyAppend(a, [x]);
    TallyAppend(a, b);
    TallyOne(x);
  }

  lemma SplitAt<T>(items: seq<T>, at: nat)
    requires at < |items|
    ensures items[..at] + [items[at]] + items[at + 1..] == items
    ensures Spliced(Without(items, at), at, items[at]) == items
  {
  }

  lemma TallySplice(items: seq<Item>, at: nat, x: Item)
    requires at <= |items|
    ensures TallyAll(Spliced(items, at, x)) == TallyAll(items) + Tally(x)
  {
    TallyAround(items[..at], x, items[at..]);
    assert items == items[..at] + items[at..];
  }

  lemma TallyWithout(items: seq<Item>, at: nat)
    requires at < |items|
    ensures TallyAll(items) == TallyAll(Without(items, at)) + Tally(items[at])
  {
    TallyAround(items[..at], items[at], items[at + 1..]);
    SplitAt(items, at);
  }

  lemma TallyUpdate(items: seq<Item>, at: nat, x: Item)
    requires at < |items|
    ensures TallyAll(items[at := x]) + Tally(items[at]) == TallyAll(items) + Tally(x)
  {
    TallyWithout(items, at);
    TallyWithout(items[at := x], at);
    assert Without(items[at := x], at) == Without(items, at);
  }

  lemma TallyMember(items: seq<Item>, at: nat)
    requires at < |items|
    ensures Tally(items[at]) <= TallyAll(items)
    ensures Name(items[at].guid) in TallyAll(items)
  {
    TallyWithout(items, at);
  }

  // ---------------------------------------------------------------- finding

  function FindByGuid(it: Item, g: Guid): Option<Item>
    decreases it, 0
  {
    if it.guid == g then Some(it)
    else if it.Holder? then FindIn(it.inside, g)
    else None
  }

  function FindIn(items: seq<Item>, g: Guid): Option<Item>
    decreases items
  {
    if items == [] then None
    else if FindByGuid(items[0], g).Some? then FindByGuid(items[0], g)
    else FindIn(items[1..], g)
  }

  lemma {:induction false} FoundIffNamed(it: Item, g: Guid)
    ensures FindByGuid(it, g).Some? <==> Name(g) in Tally(it)
    ensures FindByGuid(it, g).Some? ==> FindByGuid(it, g).value.guid == g
    ensures FindByGuid(it, g).Some? ==> Tally(FindByGuid(it, g).value) <= Tally(it)
    decreases it, 0
  {
    if it.Holder? { FoundIffNamedIn(it.inside, g); }
  }

  lemma {:induction false} FoundIffNamedIn(items: seq<Item>, g: Guid)
    ensures FindIn(items, g).Some? <==> Name(g) in TallyAll(items)
    ensures FindIn(items, g).Some? ==> FindIn(items, g).value.guid == g
    ensures FindIn(items, g).Some? ==> Tally(FindIn(items, g).value) <= TallyAll(items)
    decreases items
  {
    if items != [] {
      FoundIffNamed(items[0], g);
      FoundIffNamedIn(items[1..], g);
    }
  }

  // ---------------------------------------------------------------- changing one node

  // The tree with the first node named `g` replaced: what writing through a mutable
  // reference found by name leaves behind.
  function Replace(it: Item, g: Guid, x: Item): Item
    requires FindByGuid(it, g).Some?
    decreases it, 0
  {
    if it.guid == g then x else it.(inside := ReplaceIn(it.inside, g, x))
  }

  function ReplaceIn(items: seq<Item>, g: Guid, x: Item): (r: seq<Item>)
    requires FindIn(items, g).Some?
    ensures |r| == |items|
    decreases items
  {
    if FindByGuid(items[0], g).Some? then [Replace(items[0], g, x)] + items[1..]
    else [items[0]] + ReplaceIn(items[1..], g, x)
  }

  lemma {:induction false} ReplaceBalances(it: Item, g: Guid, x: Item)
    requires FindByGuid(it, g).Some?
    ensures Tally(Replace(it, g, x)) + Tally(FindByGuid(it, g).value) == Tally(it) + Tally(x)
    decreases it, 0
  {
    if it.guid != g {
      ReplaceInBalances(it.inside, g, x);
      var r := it.(inside := ReplaceIn(it.inside, g, x));
      Balance(OwnTally(it), TallyAll(r.inside), Tally(FindByGuid(it, g).value), TallyAll(it.inside), Tally(x));
    }
  }

  lemma {:induction false} ReplaceInBalances(items: seq<Item>, g: Guid, x: Item)
    requires FindIn(items, g).Some?
    ensures TallyAll(ReplaceIn(items, g, x)) + Tally(FindIn(items, g).value) == TallyAll(items) + Tally(x)
    decreases items
  {
    if FindByGuid(items[0], g).Some? {
      var c := FindByGuid(items[0], g).value;
      ReplaceBalances(items[0], g, x);
      Balance(TallyAll(items[1..]), Tally(Replace(items[0], g, x)), Tally(c), Tally(items[0]), Tally(x));
      assert ReplaceIn(items, g, x)[1..] == items[1..];
    } else {
      ReplaceInBalances(items[1..], g, x);
      var tail := ReplaceIn(items[1..], g, x);
      Balance(Tally(items[0]), TallyAll(tail), Tally(FindIn(items[1..], g).value), TallyAll(items[1..]), Tally(x));
      assert ReplaceIn(items, g, x)[1..] == tail;
    }
  }

  lemma Balance(rest: multiset<Token>, a: multiset<Token>, b: multiset<Token>, c: multiset<Token>, d: multiset<Token>)
    requires a + b == c + d
    ensures (rest + a) + b == (rest + c) + d && (a + rest) + b == (c + rest) + d
  {
    forall t ensures a[t] + b[t] == c[t] + d[t] { assert (a + b)[t] == (c + d)[t]; }
  }

  lemma {:induction false} ReplacedIsFound(it: Item, g: Guid, x: Item)
    requires FindByGuid(it, g).Some? && x.guid == g
    ensures FindByGuid(Replace(it, g, x), g) == Some(x)
    ensures Replace(it, g, x).guid == it.guid
    ensures x.config == FindByGuid(it, g).value.config ==> Replace(it, g, x).config == it.config
    decreases it, 0
  {
    if it.guid != g { ReplacedInIsFound(it.inside, g, x); }
  }

  lemma {:induction false} ReplacedInIsFound(items: seq<Item>, g: Guid, x: Item)
    requires FindIn(items, g).Some? && x.guid == g
    ensures FindIn(ReplaceIn(items, g, x), g) == Some(x)
    decreases items
  {
    if FindByGuid(items[0], g).Some? {
      ReplacedIsFound(items[0], g, x);
    } else {
      ReplacedInIsFound(items[1..], g, x);
      assert ReplaceIn(items, g, x)[1..] == ReplaceIn(items[1..], g, x);
    }
  }

  // ---------------------------------------------------------------- taking

  // Part of a stack becomes an item of its own, with a name never used before.
  function SplitOff(it: Item, amount: U8, newName: Guid): (r: (Item, Item))
    requires amount < it.amount
  {
    (it.(amount := it.amount - amount), Solid(newName, it.config, amount))
  }

  // A stack's own tally, by what it depends on.
  ghost function StackTally(g: Guid, id: U16, units: nat, weight: nat): multiset<Token> {
    multiset{Name(g)}[Units(id) := units][Weight := weight]
  }

  lemma StacksAdd(g: Guid, h: Guid, id: U16, a: nat, b: nat, v: nat, w: nat)
    ensures StackTally(g, id, a, v) + StackTally(h, id, b, w)
         == StackTally(g, id, a + b, v + w) + multiset{Name(h)}
  {
  }

  lemma OwnSplit(it: Item, amount: U8, newName: Guid)
    requires amount < it.amount
    ensures var (left, piece) := SplitOff(it, amount, newName);
            OwnTally(left) + OwnTally(piece) == OwnTally(it) + multiset{Name(newName)}
  {
    var rest: int := it.amount - amount;
    WeightSplits(it.config, rest, amount);
    StacksAdd(it.guid, newName, it.config.id, rest, amount,
              StackWeight(it.config, rest), StackWeight(it.config, amount));
  }

  lemma SplitBalances(it: Item, amount: U8, newName: Guid)
    requires amount < it.amount
    ensures var (left, piece) := SplitOff(it, amount, newName);
            Tally(left) + Tally(piece) == Tally(it) + multiset{Name(newName)}
  {
    var (left, piece) := SplitOff(it, amount, newName);
    OwnSplit(it, amount, newName);
    Balance(InsideTally(it), OwnTally(left), OwnTally(piece), OwnTally(it), multiset{Name(newName)});
    assert Tally(piece) == OwnTally(piece) + multiset{};
  }

  function IndexOf(items: seq<Item>, g: Guid): (r: Option<nat>)
    ensures r.Some? ==> r.value < |items| && items[r.value].guid == g
    ensures r.None? ==> forall i :: 0 <= i < |items| ==> items[i].guid != g
  {
    if items == [] then None
    else if items[0].guid == g then Some(0)
    else match IndexOf(items[1..], g) case None => None case Some(i) => Some(i + 1)
  }

  // What is left, what was taken, and the place it was taken from: an index in the list
  // itself or in the container named.
  datatype Taken = Taken(rest: seq<Item>, removed: Item, at: nat, parent: Option<Guid>)

  // Takes `amount` of the item named `g` from wherever it is below `items`; nothing when it
  // is not there or there is too little of it.
  function TakeFrom(items: seq<Item>, g: Guid, amount: U8, newName: Guid): Option<Taken>
    decreases items, 1
  {
    match IndexOf(items, g)
    case Some(i) =>
      if items[i].amount > amount then
        var (left, piece) := SplitOff(items[i], amount, newName);
        Some(Taken(items[i := left], piece, i, None))
      else if items[i].amount == amount then
        Some(Taken(Without(items, i), items[i], i, None))
      else None
    case None => TakeDeep(items, g, amount, newName)
  }

  function TakeDeep(items: seq<Item>, g: Guid, amount: U8, newName: Guid): Option<Taken>
    decreases items, 0
  {
    if items == [] then None
    else match TakeNested(items[0], g, amount, newName)
      case Some((it, t)) => Some(t.(rest := [it] + items[1..]))
      case None =>
        match TakeDeep(items[1..], g, amount, newName)
        case Some(t) => Some(t.(rest := [items[0]] + t.rest))
        case None => None
  }

  function TakeNested(it: Item, g: Guid, amount: U8, newName: Guid): Option<(Item, Taken)>
    decreases it
  {
    if it.Solid? then None
    else match TakeFrom(it.inside, g, amount, newName)
      case Some(t) => Some((it.(inside := t.rest), t.(parent := if t.parent.Some? then t.parent else Some(it.guid))))
      case None => None
  }

  // The one name a taking may add.
  ghost function Minted(removed: Item, newName: Guid): multiset<Token> {
    if removed.guid == newName then multiset{Name(newName)} else multiset{}
  }

  lemma {:induction false} TakeBalances(items: seq<Item>, g: Guid, amount: U8, newName: Guid)
    requires Name(newName) !in TallyAll(items)
    ensures var t := TakeFrom(items, g, amount, newName);
            t.Some? ==> TallyAll(t.value.rest) + Tally(t.value.removed)
                        == TallyAll(items) + Minted(t.value.removed, newName)
    decreases items, 1
  {
    var i := IndexOf(items, g);
    if i.None? {
      TakeDeepBalances(items, g, amount, newName);
    } else if items[i.value].amount > amount {
      TakePartBalances(items, i.value, amount, newName);
    } else {
      TallyWithout(items, i.value);
      TallyMember(items, i.value);
    }
  }

  lemma TakePartBalances(items: seq<Item>, i: nat, amount: U8, newName: Guid)
    requires i < |items| && amount < items[i].amount
    ensures var (left, piece) := SplitOff(items[i], amount, newName);
            TallyAll(items[i := left]) + Tally(piece) == TallyAll(items) + multiset{Name(newName)}
  {
    var (left, piece) := SplitOff(items[i], amount, newName);
    SplitBalances(items[i], amount, newName);
    TallyUpdate(items, i, left);
    CancelStep(TallyAll(items[i := left]), Tally(items[i]), TallyAll(items), Tally(left), Tally(piece),
               multiset{Name(newName)});
  }

  lemma CancelStep(a: multiset<Token>, b: multiset<Token>, c: multiset<Token>, d: multiset<Token>,
                   e: multiset<Token>, f: multiset<Token>)
    requires a + b == c + d && d + e == b + f
    ensures a + e == c + f
  {
    forall t ensures (a + e)[t] == (c + f)[t] {
      assert (a + b)[t] == (c + d)[t] && (d + e)[t] == (b + f)[t];
    }
  }

  lemma {:induction false} TakeDeepBalances(items: seq<Item>, g: Guid, amount: U8, newName: Guid)
    requires Name(newName) !in TallyAll(items)
    ensures var t := TakeDeep(items, g, amount, newName);
            t.Some? ==> TallyAll(t.value.rest) + Tally(t.value.removed)
                        == TallyAll(items) + Minted(t.value.removed, newName)
    decreases items, 0
  {
    if items != [] {
      var head, tail := Tally(items[0]), TallyAll(items[1..]);
      TakeNestedBalances(items[0], g, amount, newName);
      match TakeNested(items[0], g, amount, newName) {
        case Some((it, t)) =>
          Balance(tail, Tally(it), Tally(t.removed), head, Minted(t.removed, newName));
          assert ([it] + items[1..])[1..] == items[1..];
        case None =>
          TakeDeepBalances(items[1..], g, amount, newName);
          var deep := TakeDeep(items[1..], g, amount, newName);
          if deep.Some? {
            var t := deep.value;
            Balance(head, TallyAll(t.rest), Tally(t.removed), tail, Minted(t.removed, newName));
            assert ([items[0]] + t.rest)[1..] == t.rest;
          }
      }
    }
  }

  lemma {:induction false} TakeNestedBalances(it: Item, g: Guid, amount: U8, newName: Guid)
    requires Name(newName) !in Tally(it)
    ensures var r := TakeNested(it, g, amount, newName);
            r.Some? ==> Tally(r.value.0) + Tally(r.value.1.removed) == Tally(it) + Minted(r.value.1.removed, newName)
    decreases it
  {
    if it.Holder? {
      TakeBalances(it.inside, g, amount, newName);
      match TakeFrom(it.inside, g, amount, newName) {
        case Some(t) =>
          Balance(OwnTally(it), TallyAll(t.rest), Tally(t.removed), TallyAll(it.inside), Minted(t.removed, newName));
          assert OwnTally(it.(inside := t.rest)) == OwnTally(it);
        case None =>
      }
    }
  }

  // Weights balance even where the name given to a piece is in use already.
  lemma {:induction false} TakeWeighs(items: seq<Item>, g: Guid, amount: U8, newName: Guid)
    ensures var t := TakeFrom(items, g, amount, newName);
            t.Some? ==> WeightOfAll(t.value.rest) + TotalWeight(t.value.removed) == WeightOfAll(items)
    decreases items, 1
  {
    var i := IndexOf(items, g);
    if i.None? {
      TakeDeepWeighs(items, g, amount, newName);
    } else if items[i.value].amount > amount {
      var (left, piece) := SplitOff(items[i.value], amount, newName);
      SplitWeighs(items[i.value], amount, newName);
      UpdateWeighs(items, i.value, left);
    } else {
      WithoutWeighs(items, i.value);
    }
  }

  lemma {:induction false} TakeDeepWeighs(items: seq<Item>, g: Guid, amount: U8, newName: Guid)
    ensures var t := TakeDeep(items, g, amount, newName);
            t.Some? ==> WeightOfAll(t.value.rest) + TotalWeight(t.value.removed) == WeightOfAll(items)
    decreases items, 0
  {
    if items != [] {
      TakeNestedWeighs(items[0], g, amount, newName);
      match TakeNested(items[0], g, amount, newName) {
        case Some((it, t)) => assert ([it] + items[1..])[1..] == items[1..];
        case None =>
          TakeDeepWeighs(items[1..], g, amount, newName);
          var deep := TakeDeep(items[1..], g, amount, newName);
          if deep.Some? { assert ([items[0]] + deep.value.rest)[1..] == deep.value.rest; }
      }
    }
  }

  lemma {:induction false} TakeNestedWeighs(it: Item, g: Guid, amount: U8, newName: Guid)
    ensures var r := TakeNested(it, g, amount, newName);
            r.Some? ==> TotalWeight(r.value.0) + TotalWeight(r.value.1.removed) == TotalWeight(it)
    decreases it
  {
    if it.Holder? { TakeWeighs(it.inside, g, amount, newName); }
  }

  lemma {:induction false} SplitWeighs(it: Item, amount: U8, newName: Guid)
    requires amount < it.amount
    ensures var (left, piece) := SplitOff(it, amount, newName);
            TotalWeight(left) + TotalWeight(piece) == TotalWeight(it)
  {
    var (left, piece) := SplitOff(it, amount, newName);
    WeightIsTallied(it);
    WeightIsTallied(left);
    WeightIsTallied(piece);
    SplitBalances(it, amount, newName);
    assert (Tally(left) + Tally(piece))[Weight] == (Tally(it) + multiset{Name(newName)})[Weight];
  }

  lemma {:induction false} UpdateWeighs(items: seq<Item>, at: nat, x: Item)
    requires at < |items|
    ensures WeightOfAll(items[at := x]) + TotalWeight(items[at]) == WeightOfAll(items) + TotalWeight(x)
  {
    if at == 0 {
      assert items[at := x][1..] == items[1..];
    } else {
      assert items[at := x][1..] == items[1..][at - 1 := x];
      UpdateWeighs(items[1..], at - 1, x);
    }
  }

  lemma {:induction false} WithoutWeighs(items: seq<Item>, at: nat)
    requires at < |items|
    ensures WeightOfAll(Without(items, at)) + TotalWeight(items[at]) == WeightOfAll(items)
  {
    if at == 0 {
      assert Without(items, at) == items[1..];
    } else {
      assert Without(items, at)[1..] == Without(items[1..], at - 1);
      WithoutWeighs(items[1..], at - 1);
    }
  }

  // Taken straight from the list, the item is gone from it or left smaller; taken from
  // deeper, it leaves a list as long as before and names its container.
  lemma {:induction false} TakenFromWhere(items: seq<Item>, g: Guid, amount: U8, newName: Guid)
    requires TakeFrom(items, g, amount, newName).Some?
    ensures var (t, i) := (TakeFrom(items, g, amount, newName).value, IndexOf(items, g));
            && (t.parent.None? <==> i.Some?)
            && (i.Some? ==> t.at == i.value <= |t.rest|)
            && |t.rest| == |items| - (if i.Some? && items[i.value].amount == amount then 1 else 0)
  {
    if IndexOf(items, g).None? { TakenFromDeeper(items, g, amount, newName); }
  }

  lemma {:induction false} TakenFromDeeper(items: seq<Item>, g: Guid, amount: U8, newName: Guid)
    requires TakeDeep(items, g, amount, newName).Some?
    ensures var t := TakeDeep(items, g, amount, newName).value; t.parent.Some? && |t.rest| == |items|
  {
    if TakeNested(items[0], g, amount, newName).None? { TakenFromDeeper(items[1..], g, amount, newName); }
  }

  // ---------------------------------------------------------------- taking what was found

  lemma UniqueParts(a: multiset<Token>, b: multiset<Token>)
    requires Unique(a + b)
    ensures Unique(a) && Unique(b)
    ensures forall g :: Name(g) in a ==> Name(g) !in b
  {
    forall g ensures a[Name(g)] + b[Name(g)] <= 1 { assert (a + b)[Name(g)] <= 1; }
  }

  lemma {:induction false} DirectItemIsFound(items: seq<Item>, i: nat)
    requires i < |items| && Unique(TallyAll(items))
    ensures FindIn(items, items[i].guid) == Some(items[i])
  {
    UniqueParts(Tally(items[0]), TallyAll(items[1..]));
    if i > 0 {
      DirectItemIsFound(items[1..], i - 1);
      TallyMember(items[1..], i - 1);
      FoundIffNamed(items[0], items[i].guid);
    }
  }

  // What taking `amount` of `x` yields: `x` itself, or a piece of it.
  ghost predicate IsTakenFrom(removed: Item, x: Item, amount: U8, newName: Guid) {
    && x.amount >= amount
    && (if x.amount == amount then removed == x else removed == Solid(newName, x.config, amount))
  }

  // Where names are unique, the item taken is the item a search finds, and the taking fails
  // exactly when there is none or too little of it.
  lemma {:induction false} TakesWhatIsFound(items: seq<Item>, g: Guid, amount: U8, newName: Guid)
    requires Unique(TallyAll(items))
    ensures var (t, x) := (TakeFrom(items, g, amount, newName), FindIn(items, g));
            && (t.Some? <==> x.Some? && x.value.amount >= amount)
            && (t.Some? ==> IsTakenFrom(t.value.removed, x.value, amount, newName))
    decreases items, 1
  {
    var i := IndexOf(items, g);
    if i.Some? {
      DirectItemIsFound(items, i.value);
    } else {
      TakesWhatIsFoundDeep(items, g, amount, newName);
    }
  }

  lemma {:induction false} TakesWhatIsFoundDeep(items: seq<Item>, g: Guid, amount: U8, newName: Guid)
    requires Unique(TallyAll(items)) && forall i :: 0 <= i < |items| ==> items[i].guid != g
    ensures var (t, x) := (TakeDeep(items, g, amount, newName), FindIn(items, g));
            && (t.Some? <==> x.Some? && x.value.amount >= amount)
            && (t.Some? ==> IsTakenFrom(t.value.removed, x.value, amount, newName))
    decreases items, 0
  {
    if items != [] {
      var it := items[0];
      UniqueParts(Tally(it), TallyAll(items[1..]));
      if it.Holder? {
        UniqueParts(OwnTally(it), InsideTally(it));
        TakesWhatIsFound(it.inside, g, amount, newName);
      }
      assert forall i :: 0 <= i < |items| - 1 ==> items[1..][i].guid == items[i + 1].guid;
      TakesWhatIsFoundDeep(items[1..], g, amount, newName);
      FoundIffNamed(it, g);
      FoundIffNamedIn(items[1..], g);
    }
  }

  // Taking from a container that holds the item directly, wherever the container is: it is
  // the container that is left smaller.
  ghost predicate LeavesContainer(items: seq<Item>, g: Guid, i: nat, amount: U8, newName: Guid, t: Taken)
    requires FindIn(items, g).Some? && FindIn(items, g).value.Holder? && i < |FindIn(items, g).value.inside|
  {
    var c := FindIn(items, g).value;
    && c.inside[i].amount >= amount
    && t.parent == Some(g) && t.at == i
    && FindIn(t.rest, g) == Some(c.(inside := TakenAt(c.inside, i, amount, newName)))
    && t.removed == (if c.inside[i].amount == amount then c.inside[i] else SplitOff(c.inside[i], amount, newName).1)
  }

  function TakenAt(items: seq<Item>, i: nat, amount: U8, newName: Guid): seq<Item>
    requires i < |items| && items[i].amount >= amount
  {
    if items[i].amount == amount then Without(items, i) else items[i := SplitOff(items[i], amount, newName).0]
  }

  lemma {:induction false} NamesDiffer(items: seq<Item>, j: nat, i: nat)
    requires j < i < |items| && Unique(TallyAll(items))
    ensures items[j].guid != items[i].guid
  {
    UniqueParts(Tally(items[0]), TallyAll(items[1..]));
    if j > 0 {
      NamesDiffer(items[1..], j - 1, i - 1);
    } else {
      FoundIffNamed(items[0], items[0].guid);
      TallyMember(items[1..], i - 1);
    }
  }

  lemma IndexIsUnique(items: seq<Item>, i: nat)
    requires i < |items| && Unique(TallyAll(items))
    ensures IndexOf(items, items[i].guid) == Some(i)
  {
    var at := IndexOf(items, items[i].guid).value;
    if at < i { NamesDiffer(items, at, i); }
    if at > i { NamesDiffer(items, i, at); }
  }

  lemma NothingToTake(it: Item, g: Guid, amount: U8, newName: Guid)
    requires Unique(Tally(it)) && Name(g) !in Tally(it)
    ensures TakeNested(it, g, amount, newName).None?
  {
    if it.Holder? {
      UniqueParts(OwnTally(it), InsideTally(it));
      TakesWhatIsFound(it.inside, g, amount, newName);
      FoundIffNamedIn(it.inside, g);
    }
  }

  // A name inside a tree of the list is no tree's own name.
  lemma {:induction false} InsideIsNotDirect(items: seq<Item>, g: Guid, i: nat)
    requires Unique(TallyAll(items)) && FindIn(items, g).Some?
    requires FindIn(items, g).value.Holder? && i < |FindIn(items, g).value.inside|
    ensures IndexOf(items, FindIn(items, g).value.inside[i].guid).None?
    ensures Name(FindIn(items, g).value.inside[i].guid) in TallyAll(items)
  {
    var (head, tail) := (Tally(items[0]), TallyAll(items[1..]));
    var guid := FindIn(items, g).value.inside[i].guid;
    UniqueParts(head, tail);
    FoundIffNamed(items[0], g);
    FoundIffNamedIn(items[1..], g);
    if FindByGuid(items[0], g).Some? {
      NamedBelow(items[0], g, i);
      AbsentIsNoIndex(items[1..], guid);
    } else {
      InsideIsNotDirect(items[1..], g, i);
      assert Name(items[0].guid) in head;
    }
  }

  lemma {:induction false} AbsentIsNoIndex(items: seq<Item>, g: Guid)
    requires Name(g) !in TallyAll(items)
    ensures IndexOf(items, g).None?
  {
    if items != [] {
      assert Name(items[0].guid) in Tally(items[0]);
      AbsentIsNoIndex(items[1..], g);
    }
  }

  // What is in a container of a tree is in the tree, under a name other than its root's.
  lemma NamedBelow(it: Item, g: Guid, i: nat)
    requires Unique(Tally(it)) && FindByGuid(it, g).Some?
    requires FindByGuid(it, g).value.Holder? && i < |FindByGuid(it, g).value.inside|
    ensures var guid := FindByGuid(it, g).value.inside[i].guid; Name(guid) in InsideTally(it) && guid != it.guid
  {
    var c := FindByGuid(it, g).value;
    UniqueParts(OwnTally(it), InsideTally(it));
    assert Name(it.guid) in OwnTally(it);
    TallyMember(c.inside, i);
    if it.guid != g {
      FoundIffNamedIn(it.inside, g);
      assert Tally(c) <= InsideTally(it);
    }
  }

  lemma {:induction false} TakesFromContainer(items: seq<Item>, g: Guid, i: nat, amount: U8, newName: Guid)
    requires Unique(TallyAll(items)) && FindIn(items, g).Some?
    requires FindIn(items, g).value.Holder? && i < |FindIn(items, g).value.inside|
    ensures var t := TakeFrom(items, FindIn(items, g).value.inside[i].guid, amount, newName);
            t.Some? ==> LeavesContainer(items, g, i, amount, newName, t.value)
    decreases items
  {
    var guid := FindIn(items, g).value.inside[i].guid;
    InsideIsNotDirect(items, g, i);
    var it := items[0];
    UniqueParts(Tally(it), TallyAll(items[1..]));
    FoundIffNamed(it, g);
    FoundIffNamedIn(items[1..], g);
    if FindByGuid(it, g).Some? {
      NamedBelow(it, g, i);
      NestedTakesFromContainer(it, g, i, amount, newName);
      AbsentIsNotTaken(items[1..], guid, amount, newName);
    } else {
      InsideIsNotDirect(items[1..], g, i);
      NothingToTake(it, guid, amount, newName);
      TakesFromContainer(items[1..], g, i, amount, newName);
      var t := TakeDeep(items, guid, amount, newName);
      if t.Some? { assert t.value.rest[1..] == TakeDeep(items[1..], guid, amount, newName).value.rest; }
    }
  }

  lemma AbsentIsNotTaken(items: seq<Item>, g: Guid, amount: U8, newName: Guid)
    requires Unique(TallyAll(items)) && Name(g) !in TallyAll(items)
    ensures TakeDeep(items, g, amount, newName).None?
  {
    TakesWhatIsFound(items, g, amount, newName);
    FoundIffNamedIn(items, g);
    AbsentIsNoIndex(items, g);
  }

  lemma {:induction false} NestedTakesFromContainer(it: Item, g: Guid, i: nat, amount: U8, newName: Guid)
    requires Unique(Tally(it)) && FindByGuid(it, g).Some?
    requires FindByGuid(it, g).value.Holder? && i < |FindByGuid(it, g).value.inside|
    ensures var c := FindByGuid(it, g).value;
            var r := TakeNested(it, c.inside[i].guid, amount, newName);
            r.Some? ==>
              && r.value.0.guid == it.guid
              && c.inside[i].amount >= amount
              && r.value.1.parent == Some(g) && r.value.1.at == i
              && FindByGuid(r.value.0, g) == Some(c.(inside := TakenAt(c.inside, i, amount, newName)))
              && r.value.1.removed
                 == (if c.inside[i].amount == amount then c.inside[i] else SplitOff(c.inside[i], amount, newName).1)
    decreases it
  {
    UniqueParts(OwnTally(it), InsideTally(it));
    if it.guid == g {
      IndexIsUnique(it.inside, i);
    } else {
      TakesFromContainer(it.inside, g, i, amount, newName);
    }
  }

  // What lies in a container that is found is found under its own name.
  lemma {:induction false} FoundInside(items: seq<Item>, g: Guid, i: nat)
    requires Unique(TallyAll(items)) && FindIn(items, g).Some?
    requires FindIn(items, g).value.Holder? && i < |FindIn(items, g).value.inside|
    ensures var x := FindIn(items, g).value.inside[i]; FindIn(items, x.guid) == Some(x)
    decreases items
  {
    var guid := FindIn(items, g).value.inside[i].guid;
    UniqueParts(Tally(items[0]), TallyAll(items[1..]));
    FoundIffNamed(items[0], guid);
    if FindByGuid(items[0], g).Some? {
      NestedFoundInside(items[0], g, i);
    } else {
      InsideIsNotDirect(items[1..], g, i);
      FoundInside(items[1..], g, i);
    }
  }

  lemma {:induction false} NestedFoundInside(it: Item, g: Guid, i: nat)
    requires Unique(Tally(it)) && FindByGuid(it, g).Some?
    requires FindByGuid(it, g).value.Holder? && i < |FindByGuid(it, g).value.inside|
    ensures var x := FindByGuid(it, g).value.inside[i]; FindByGuid(it, x.guid) == Some(x)
    decreases it
  {
    NamedBelow(it, g, i);
    UniqueParts(OwnTally(it), InsideTally(it));
    if it.guid == g {
      DirectItemIsFound(it.inside, i);
    } else {
      FoundInside(it.inside, g, i);
    }
  }

  // ---------------------------------------------------------------- putting

  datatype MapError = TileDoesNotExist | EntityNotInPosition | ContainerIsFull

  function Capacity(it: Item): nat { if it.config.capacity.Some? then it.config.capacity.value else 0 }

  // A container with contents at all, and space for one more.
  predicate HasRoom(c: Option<Item>) { c.Some? && c.value.Holder? && |c.value.inside| < Capacity(c.value) }

  // What the insertion takes for granted of the container it is given: it has a capacity,
  // and where there is room the index is not past the contents. (The source panics
  // otherwise.)
  predicate Sane(c: Option<Item>, at: nat) {
    c.Some? ==> c.value.config.capacity.Some? && (HasRoom(c) ==> at <= |c.value.inside|)
  }

  predicate Fits(it: Item, target: Guid, at: nat) { Sane(FindByGuid(it, target), at) }

  predicate AllFit(items: seq<Item>, target: Guid, at: nat) {
    items != [] ==> Fits(items[0], target, at) && AllFit(items[1..], target, at)
  }

  function PutOne(it: Item, target: Guid, at: nat, x: Item): Item
    requires HasRoom(FindByGuid(it, target)) && Fits(it, target, at)
  {
    var c := FindByGuid(it, target).value;
    Replace(it, target, c.(inside := Spliced(c.inside, at, x)))
  }

  // Into the first container named `target` that has contents at all, unless it is full.
  function PutIn(items: seq<Item>, target: Guid, at: nat, x: Item): (r: Result<seq<Item>, MapError>)
    requires AllFit(items, target, at)
    ensures r.Ok? ==> |r.value| == |items|
  {
    if items == [] then Err(EntityNotInPosition)
    else
      var c := FindByGuid(items[0], target);
      if c.Some? && c.value.Holder? then
        if |c.value.inside| >= Capacity(c.value) then Err(ContainerIsFull)
        else Ok([PutOne(items[0], target, at, x)] + items[1..])
      else
        var rest :- PutIn(items[1..], target, at, x);
        Ok([items[0]] + rest)
  }

  lemma {:induction false} PutBalances(items: seq<Item>, target: Guid, at: nat, x: Item)
    requires AllFit(items, target, at)
    ensures var r := PutIn(items, target, at, x);
            r.Ok? ==> TallyAll(r.value) == TallyAll(items) + Tally(x)
  {
    if items != [] && PutIn(items, target, at, x).Ok? {
      var c := FindByGuid(items[0], target);
      if c.Some? && c.value.Holder? {
        var put := PutOne(items[0], target, at, x);
        PutOneBalances(items[0], target, at, x);
        assert ([put] + items[1..])[1..] == items[1..];
        SumWith(TallyAll(items[1..]), Tally(put), Tally(items[0]), Tally(x));
      } else {
        PutBalances(items[1..], target, at, x);
        var rest := PutIn(items[1..], target, at, x).value;
        assert ([items[0]] + rest)[1..] == rest;
        SumWith(Tally(items[0]), TallyAll(rest), TallyAll(items[1..]), Tally(x));
      }
    }
  }

  lemma SumWith(rest: multiset<Token>, a: multiset<Token>, b: multiset<Token>, x: multiset<Token>)
    requires a == b + x
    ensures rest + a == (rest + b) + x && a + rest == (b + rest) + x
  {
  }

  lemma PutOneBalances(it: Item, target: Guid, at: nat, x: Item)
    requires HasRoom(FindByGuid(it, target)) && Fits(it, target, at)
    ensures Tally(PutOne(it, target, at, x)) == Tally(it) + Tally(x)
  {
    var c := FindByGuid(it, target).value;
    var c' := c.(inside := Spliced(c.inside, at, x));
    ReplaceBalances(it, target, c');
    TallySplice(c.inside, at, x);
    SumWith(OwnTally(c), TallyAll(c'.inside), TallyAll(c.inside), Tally(x));
    Cancel(Tally(PutOne(it, target, at, x)), Tally(c), Tally(it), Tally(c'), Tally(x));
  }

  lemma Cancel(r: multiset<Token>, c: multiset<Token>, i: multiset<Token>, c': multiset<Token>, x: multiset<Token>)
    requires r + c == i + c' && c' == c + x
    ensures r == i + x
  {
    forall t ensures r[t] == (i + x)[t] { assert (r + c)[t] == (i + c')[t]; }
  }

  // `c` is a container with `x` at index `at`.
  ghost predicate HoldsAt(c: Option<Item>, at: nat, x: Item) {
    c.Some? && c.value.Holder? && at < |c.value.inside| && c.value.inside[at] == x
  }

  lemma PutOneHolds(it: Item, target: Guid, at: nat, x: Item)
    requires HasRoom(FindByGuid(it, target)) && Fits(it, target, at)
    ensures HoldsAt(FindByGuid(PutOne(it, target, at, x), target), at, x)
  {
    PutOneFinds(it, target, at, x);
  }

  lemma PutOneFinds(it: Item, target: Guid, at: nat, x: Item)
    requires HasRoom(FindByGuid(it, target)) && Fits(it, target, at)
    ensures var c := FindByGuid(it, target).value;
            FindByGuid(PutOne(it, target, at, x), target) == Some(c.(inside := Spliced(c.inside, at, x)))
  {
    var c := FindByGuid(it, target).value;
    FoundIffNamed(it, target);
    ReplacedIsFound(it, target, c.(inside := Spliced(c.inside, at, x)));
  }

  // With unique names, only the container found has to be looked at.
  lemma {:induction false} AllFitIff(items: seq<Item>, target: Guid, at: nat)
    requires Unique(TallyAll(items))
    ensures AllFit(items, target, at) <==> Sane(FindIn(items, target), at)
  {
    if items != [] {
      UniqueParts(Tally(items[0]), TallyAll(items[1..]));
      FoundIffNamed(items[0], target);
      FoundIffNamedIn(items[1..], target);
      AllFitIff(items[1..], target, at);
    }
  }

  lemma PutInHolds(items: seq<Item>, target: Guid, at: nat, x: Item)
    requires AllFit(items, target, at) && Unique(TallyAll(items)) && PutIn(items, target, at, x).Ok?
    ensures HoldsAt(FindIn(PutIn(items, target, at, x).value, target), at, x)
  {
    PutsWhereAsked(items, target, at, x);
  }

  // A refusal has exactly two reasons, and a success is where it was asked for.
  ghost predicate PutAsAsked(r: Result<seq<Item>, MapError>, c: Option<Item>, target: Guid, at: nat, x: Item) {
    match r
    case Ok(items) =>
      && c.Some? && c.value.Holder? && |c.value.inside| < Capacity(c.value) && at <= |c.value.inside|
      && FindIn(items, target) == Some(c.value.(inside := Spliced(c.value.inside, at, x)))
    case Err(e) =>
      if c.Some? && c.value.Holder?
      then e == ContainerIsFull && |c.value.inside| >= Capacity(c.value)
      else e == EntityNotInPosition
  }

  lemma {:induction false} PutsWhereAsked(items: seq<Item>, target: Guid, at: nat, x: Item)
    requires AllFit(items, target, at) && Unique(TallyAll(items))
    ensures PutAsAsked(PutIn(items, target, at, x), FindIn(items, target), target, at, x)
  {
    if items != [] {
      UniqueParts(Tally(items[0]), TallyAll(items[1..]));
      FoundIffNamed(items[0], target);
      FoundIffNamedIn(items[1..], target);
      if FindByGuid(items[0], target).None? {
        PutsWhereAsked(items[1..], target, at, x);
        PutsInTheRest(items, target, at, x);
      } else {
        PutsInTheFirst(items, target, at, x);
      }
    }
  }

  lemma PutsInTheRest(items: seq<Item>, target: Guid, at: nat, x: Item)
    requires AllFit(items, target, at) && items != [] && FindByGuid(items[0], target).None?
    requires PutAsAsked(PutIn(items[1..], target, at, x), FindIn(items[1..], target), target, at, x)
    ensures PutAsAsked(PutIn(items, target, at, x), FindIn(items, target), target, at, x)
  {
  }

  lemma PutsInTheFirst(items: seq<Item>, target: Guid, at: nat, x: Item)
    requires AllFit(items, target, at) && items != []
    requires FindByGuid(items[0], target).Some? && FindIn(items[1..], target).None?
    ensures PutAsAsked(PutIn(items, target, at, x), FindIn(items, target), target, at, x)
  {
    var c := FindByGuid(items[0], target).value;
    if c.Holder? {
      if HasRoom(Some(c)) { PutOneFinds(items[0], target, at, x); }
    } else {
      AbsentIsNotPut(items[1..], target, at, x);
    }
  }

  lemma {:induction false} AbsentIsNotPut(items: seq<Item>, target: Guid, at: nat, x: Item)
    requires AllFit(items, target, at) && FindIn(items, target).None?
    ensures PutIn(items, target, at, x) == Err(EntityNotInPosition)
  {
    if items != [] { AbsentIsNotPut(items[1..], target, at, x); }
  }

  // ---------------------------------------------------------------- room for one more

  // Only what has a capacity is looked at, and only what has room is named.
  function FindAvailable(it: Item): Option<Guid>
    decreases it, 0
  {
    if it.config.capacity.None? then None
    else if |Inside(it)| < Capacity(it) then Some(it.guid)
    else if it.Holder? then FindAvailableIn(it.inside)
    else None
  }

  function FindAvailableIn(items: seq<Item>): Option<Guid>
    decreases items
  {
    if items == [] then None
    else if FindAvailable(items[0]).Some? then FindAvailable(items[0])
    else FindAvailableIn(items[1..])
  }

  lemma {:induction false} AvailableHasRoom(it: Item)
    requires Unique(Tally(it)) && FindAvailable(it).Some?
    ensures var c := FindByGuid(it, FindAvailable(it).value);
            c.Some? && c.value.config.capacity.Some? && |Inside(c.value)| < Capacity(c.value)
    decreases it, 0
  {
    if |Inside(it)| >= Capacity(it) {
      UniqueParts(OwnTally(it), InsideTally(it));
      AvailableInHasRoom(it.inside);
      FoundIffNamedIn(it.inside, FindAvailable(it).value);
      assert Name(it.guid) in OwnTally(it);
    }
  }

  lemma {:induction false} AvailableInHasRoom(items: seq<Item>)
    requires Unique(TallyAll(items)) && FindAvailableIn(items).Some?
    ensures var c := FindIn(items, FindAvailableIn(items).value);
            c.Some? && c.value.config.capacity.Some? && |Inside(c.value)| < Capacity(c.value)
    decreases items
  {
    UniqueParts(Tally(items[0]), TallyAll(items[1..]));
    if FindAvailable(items[0]).Some? {
      AvailableHasRoom(items[0]);
    } else {
      AvailableInHasRoom(items[1..]);
      FoundIffNamed(items[0], FindAvailableIn(items).value);
      FoundIffNamedIn(items[1..], FindAvailableIn(items).value);
    }
  }

  // The containers the search for room comes to, each before those inside it: it goes no
  // deeper than an item without a capacity.
  ghost function Searched(it: Item): seq<Item>
    decreases it, 0
  {
    if it.config.capacity.None? then []
    else [it] + (if it.Holder? then AllSearched(it.inside) else [])
  }

  ghost function AllSearched(items: seq<Item>): seq<Item>
    decreases items
  {
    if items == [] then [] else Searched(items[0]) + AllSearched(items[1..])
  }

  ghost predicate HasSpace(it: Item) {
    it.config.capacity.Some? && (it.Holder? ==> |it.inside| < it.config.capacity.value)
    && (it.Solid? ==> it.config.capacity.value > 0)
  }

  // The name of the first of them with space, if there is one.
  ghost predicate NamesTheFirst(found: Option<Guid>, items: seq<Item>) {
    match found
    case None => forall i :: 0 <= i < |items| ==> !HasSpace(items[i])
    case Some(g) =>
      exists i :: && 0 <= i < |items| && HasSpace(items[i]) && items[i].guid == g
                  && forall j :: 0 <= j < i ==> !HasSpace(items[j])
  }

  lemma {:induction false} FirstOfBoth(a: seq<Item>, b: seq<Item>, inA: Option<Guid>, inB: Option<Guid>)
    requires NamesTheFirst(inA, a) && NamesTheFirst(inB, b)
    ensures NamesTheFirst(if inA.Some? then inA else inB, a + b)
  {
    if inA.Some? {
      var i :| 0 <= i < |a| && HasSpace(a[i]) && a[i].guid == inA.value && forall j :: 0 <= j < i ==> !HasSpace(a[j]);
      assert (a + b)[i] == a[i];
    } else if inB.Some? {
      var i :| 0 <= i < |b| && HasSpace(b[i]) && b[i].guid == inB.value && forall j :: 0 <= j < i ==> !HasSpace(b[j]);
      assert (a + b)[|a| + i] == b[i];
    }
  }

  // Room is found whenever there is some, and the first there is.
  lemma {:induction false} AvailableIsTheFirst(it: Item)
    ensures NamesTheFirst(FindAvailable(it), Searched(it))
    decreases it, 0
  {
    if it.config.capacity.Some? {
      var inside := if it.Holder? then AllSearched(it.inside) else [];
      var deeper := if it.Holder? then FindAvailableIn(it.inside) else None;
      if it.Holder? { AvailableInIsTheFirst(it.inside); }
      var here := if HasSpace(it) then Some(it.guid) else None;
      assert [it][0] == it;
      FirstOfBoth([it], inside, here, deeper);
    }
  }

  lemma {:induction false} AvailableInIsTheFirst(items: seq<Item>)
    ensures NamesTheFirst(FindAvailableIn(items), AllSearched(items))
    decreases items
  {
    if items != [] {
      AvailableIsTheFirst(items[0]);
      AvailableInIsTheFirst(items[1..]);
      FirstOfBoth(Searched(items[0]), AllSearched(items[1..]), FindAvailable(items[0]), FindAvailableIn(items[1..]));
    }
  }

  // ---------------------------------------------------------------- topping up

  predicate IsLikeStack(it: Item, id: U16) {
    it.config.id == id && Cumulative in it.config.flags && it.amount < MAX_STACK
  }

  function TopUp(stack: Item, item: Item): (r: (Item, Item, U8))
    requires stack.amount < MAX_STACK
    ensures r.0.amount <= MAX_STACK && r.0.amount + r.1.amount == stack.amount + item.amount
  {
    var moved := Min(item.amount, MAX_STACK - stack.amount);
    (stack.(amount := stack.amount + moved), item.(amount := item.amount - moved), moved)
  }

  function FindLike(items: seq<Item>, id: U16): (r: Option<nat>)
    ensures r.Some? ==> r.value < |items| && IsLikeStack(items[r.value], id)
    ensures r.None? ==> forall i :: 0 <= i < |items| ==> !IsLikeStack(items[i], id)
  {
    if items == [] then None
    else if IsLikeStack(items[0], id) then Some(0)
    else match FindLike(items[1..], id) case None => None case Some(i) => Some(i + 1)
  }

  // Units and weight move from the item to the stack; both keep their names.
  lemma TopUpBalances(stack: Item, item: Item)
    requires stack.amount < MAX_STACK && stack.config == item.config
    ensures var (stack', item', _) := TopUp(stack, item);
            Tally(stack') + Tally(item') == Tally(stack) + Tally(item)
  {
    var (stack', item', _) := TopUp(stack, item);
    OwnTopUp(stack, item);
    SumTwo(OwnTally(stack'), OwnTally(item'), OwnTally(stack), OwnTally(item), InsideTally(stack), InsideTally(item));
  }

  lemma OwnTopUp(stack: Item, item: Item)
    requires stack.amount < MAX_STACK && stack.config == item.config
    ensures var (stack', item', _) := TopUp(stack, item);
            OwnTally(stack') + OwnTally(item') == OwnTally(stack) + OwnTally(item)
  {
    var s: int, i: int, m: int := stack.amount, item.amount, TopUp(stack, item).2;
    WeightSplits(stack.config, s, m);
    WeightSplits(item.config, i - m, m);
    StackMoves(stack.guid, item.guid, stack.config.id, s, i, m,
               StackWeight(stack.config, s), StackWeight(item.config, i), StackWeight(item.config, m));
  }

  lemma StackMoves(g: Guid, h: Guid, id: U16, s: nat, i: nat, m: nat, v: nat, w: nat, u: nat)
    requires m <= i && u <= w
    ensures StackTally(g, id, s + m, v + u) + StackTally(h, id, i - m, w - u)
         == StackTally(g, id, s, v) + StackTally(h, id, i, w)
  {
  }

  lemma SumTwo(p: multiset<Token>, q: multiset<Token>, r: multiset<Token>, s: multiset<Token>,
               a: multiset<Token>, b: multiset<Token>)
    requires p + q == r + s
    ensures (p + a) + (q + b) == (r + a) + (s + b)
  {
    forall t ensures p[t] + q[t] == r[t] + s[t] { assert (p + q)[t] == (r + s)[t]; }
  }

  // The catalogue gives every item id one configuration; for one id, this says so of a tree.
  ghost predicate Agrees(it: Item, config: ItemConfig)
    decreases it, 0
  {
    (it.config.id == config.id ==> it.config == config) && (it.Holder? ==> AllAgree(it.inside, config))
  }

  ghost predicate AllAgree(items: seq<Item>, config: ItemConfig)
    decreases items
  {
    items != [] ==> Agrees(items[0], config) && AllAgree(items[1..], config)
  }

  lemma {:induction false} FoundAgrees(it: Item, g: Guid, config: ItemConfig)
    requires Agrees(it, config) && FindByGuid(it, g).Some?
    ensures Agrees(FindByGuid(it, g).value, config)
    decreases it, 0
  {
    if it.guid != g { FoundInAgrees(it.inside, g, config); }
  }

  lemma {:induction false} FoundInAgrees(items: seq<Item>, g: Guid, config: ItemConfig)
    requires AllAgree(items, config) && FindIn(items, g).Some?
    ensures Agrees(FindIn(items, g).value, config)
    decreases items
  {
    if FindByGuid(items[0], g).Some? {
      FoundAgrees(items[0], g, config);
    } else {
      FoundInAgrees(items[1..], g, config);
    }
  }

  lemma {:induction false} MemberAgrees(items: seq<Item>, i: nat, config: ItemConfig)
    requires AllAgree(items, config) && i < |items|
    ensures Agrees(items[i], config)
  {
    if i > 0 { MemberAgrees(items[1..], i - 1, config); }
  }

  datatype Merged = Merged(items: seq<Item>, item: Item, moved: U8)

  // Tops up the first like stack of the list itself, or of the container named.
  function MergeInto(items: seq<Item>, container: Option<Guid>, item: Item): (r: Option<Merged>)
    ensures r.Some? ==> |r.value.items| == |items|
    ensures r.Some? ==> r.value.moved <= item.amount && r.value.item == item.(amount := item.amount - r.value.moved)
  {
    match container
    case None => MergeHere(items, item)
    case Some(g) =>
      var c := FindIn(items, g);
      if c.None? || c.value.Solid? then None
      else match MergeHere(c.value.inside, item)
        case None => None
        case Some(m) => Some(m.(items := ReplaceIn(items, g, c.value.(inside := m.items))))
  }

  function MergeHere(items: seq<Item>, item: Item): (r: Option<Merged>)
    ensures r.Some? ==> |r.value.items| == |items|
    ensures r.Some? ==> r.value.moved <= item.amount && r.value.item == item.(amount := item.amount - r.value.moved)
    ensures r.Some? ==> (r.value.item.amount == 0 || r.value.moved > 0)
  {
    match FindLike(items, item.config.id)
    case None => None
    case Some(i) =>
      var (stack, left, moved) := TopUp(items[i], item);
      Some(Merged(items[i := stack], left, moved))
  }

  lemma MergeHereBalances(items: seq<Item>, item: Item)
    requires AllAgree(items, item.config)
    ensures var m := MergeHere(items, item);
            m.Some? ==> TallyAll(m.value.items) + Tally(m.value.item) == TallyAll(items) + Tally(item)
  {
    var i := FindLike(items, item.config.id);
    if i.Some? {
      var (stack, left, _) := TopUp(items[i.value], item);
      MemberAgrees(items, i.value, item.config);
      TopUpBalances(items[i.value], item);
      TallyUpdate(items, i.value, stack);
      CancelStep(TallyAll(items[i.value := stack]), Tally(items[i.value]), TallyAll(items), Tally(stack),
                 Tally(left), Tally(item));
    }
  }

  // Merging moves units from the item to a stack and changes nothing else.
  lemma MergeBalances(items: seq<Item>, container: Option<Guid>, item: Item)
    requires AllAgree(items, item.config)
    ensures var m := MergeInto(items, container, item);
            m.Some? ==> TallyAll(m.value.items) + Tally(m.value.item) == TallyAll(items) + Tally(item)
  {
    if container.None? {
      MergeHereBalances(items, item);
    } else if MergeInto(items, container, item).Some? {
      var c := FindIn(items, container.value).value;
      var m := MergeHere(c.inside, item).value;
      var c' := c.(inside := m.items);
      FoundInAgrees(items, container.value, item.config);
      MergeHereBalances(c.inside, item);
      ReplaceInBalances(items, container.value, c');
      Balance(OwnTally(c), TallyAll(m.items), Tally(m.item), TallyAll(c.inside), Tally(item));
      CancelStep(TallyAll(ReplaceIn(items, container.value, c')), Tally(c), TallyAll(items), Tally(c'),
                 Tally(m.item), Tally(item));
    }
  }
}
