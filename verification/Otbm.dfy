/**
 The OTBM map format: nested nodes delimited by marker bytes, whose data bytes are escaped
 when they collide with a marker. `Parser` is the cursor the loader moves over the file;
 the functions before it say what each of its steps reads off the bytes still ahead.
 */
module Otbm {
  import opened Wrappers
  import opened Words
  import opened Positions

  const NODE_START: U8 := 0xFE
  const NODE_END: U8 := 0xFF
  const ESCAPE: U8 := 0xFD
  const ITEM: U8 := 0x06
  const TILE: U8 := 0x05
  const HOUSE_TILE: U8 := 0x0A
  const ATTR_TILE_FLAGS: U8 := 0x03
  const ATTR_ITEM: U8 := 0x09

  // `UnknownItem` and `PositionOverflow` are panics of the loader.
  datatype ParseError = UnexpectedEof | InvalidFormat | InvalidString | UnknownItem | PositionOverflow

  datatype LoadedItem = LoadedItem(itemId: U16, amount: U8, content: Option<seq<LoadedItem>>)

  // The item ids the catalogue knows, and which of them are containers.
  type Catalogue = map<U16, bool>

  // ---------------------------------------------------------------- bytes

  function RawByte(s: Bytes): (r: Read<U8, ParseError>)
    ensures r.Value? ==> |r.rest| < |s|
  {
    if s == [] then Fail(UnexpectedEof) else Value(s[0], s[1..])
  }

  predicate AtStart(s: Bytes) { s != [] && s[0] == NODE_START }

  predicate AtBoundary(s: Bytes) { s != [] && (s[0] == NODE_START || s[0] == NODE_END) }

  // A data byte with its escape undone; none at a node boundary.
  function DataByte(s: Bytes): (r: Read<Option<U8>, ParseError>)
    ensures r.Value? ==> |r.rest| <= |s| && (r.v.Some? ==> |r.rest| < |s|)
  {
    if s == [] then Fail(UnexpectedEof)
    else if AtBoundary(s) then Value(None, s)
    else if s[0] == ESCAPE then
      var (b, rest) :- RawByte(s[1..]);
      Value(Some(b), rest)
    else Value(Some(s[0]), s[1..])
  }

  function ReadU8(s: Bytes): (r: Read<U8, ParseError>)
    ensures r.Value? ==> |r.rest| < |s|
  {
    var (b, rest) :- DataByte(s);
    if b.None? then Fail(InvalidFormat) else Value(b.value, rest)
  }

  function ReadU16(s: Bytes): (r: Read<U16, ParseError>)
    ensures r.Value? ==> |r.rest| < |s|
  {
    var (lo, s) :- ReadU8(s);
    var (hi, s) :- ReadU8(s);
    Value(FromLe16(lo, hi), s)
  }

  function ReadU32(s: Bytes): (r: Read<U32, ParseError>)
    ensures r.Value? ==> |r.rest| < |s|
  {
    var (lo, s) :- ReadU16(s);
    var (hi, s) :- ReadU16(s);
    Value(FromLe32(lo, hi), s)
  }

  function ReadBytes(s: Bytes, n: nat, read: Bytes): (r: Read<Bytes, ParseError>)
    ensures r.Value? ==> |r.rest| <= |s|
    decreases n
  {
    if n == 0 then Value(read, s)
    else
      var (b, s) :- ReadU8(s);
      ReadBytes(s, n - 1, read + [b])
  }

  function ReadString(s: Bytes, utf8: Bytes -> bool): (r: Read<Bytes, ParseError>)
    ensures r.Value? ==> |r.rest| < |s|
  {
    var (n, s) :- ReadU16(s);
    var (text, s) :- ReadBytes(s, n, []);
    if utf8(text) then Value(text, s) else Fail(InvalidString)
  }

  function SkipData(s: Bytes): (r: Read<(), ParseError>)
    ensures r.Value? ==> |r.rest| <= |s|
    decreases |s|
  {
    var (b, rest) :- DataByte(s);
    if b.None? then Value((), rest) else SkipData(rest)
  }

  function ExpectEnd(s: Bytes): (r: Read<(), ParseError>)
    ensures r.Value? ==> |r.rest| < |s|
  {
    var (b, s) :- RawByte(s);
    if b == NODE_END then Value((), s) else Fail(InvalidFormat)
  }

  // A node's data, its children and its end marker; the start marker and type are behind.
  function SkipNode(s: Bytes): (r: Read<(), ParseError>)
    ensures r.Value? ==> |r.rest| < |s|
    decreases |s|, 1
  {
    var (_, s) :- SkipData(s);
    var (_, s) :- SkipChildren(s);
    ExpectEnd(s)
  }

  function SkipChildren(s: Bytes): (r: Read<(), ParseError>)
    ensures r.Value? ==> |r.rest| <= |s|
    decreases |s|, 0
  {
    if !AtStart(s) then Value((), s)
    else
      var (_, s) :- RawByte(s[1..]);
      var (_, s) :- SkipNode(s);
      SkipChildren(s)
  }

  // ---------------------------------------------------------------- items and tiles

  datatype AttrKind = Amount | Small | Word | Long | Text | Destination

  function KindOf(tag: U8): Option<AttrKind> {
    match tag
    case 0x0F => Some(Amount) // count
    case 0x0C => Some(Amount) // rune charges
    case 0x11 => Some(Small) // decaying state
    case 0x0E => Some(Small) // house door id
    case 0x16 => Some(Word) // charges
    case 0x04 => Some(Word) // action id
    case 0x05 => Some(Word) // unique id
    case 0x0A => Some(Word) // depot id
    case 0x10 => Some(Long) // duration
    case 0x12 => Some(Long) // written date
    case 0x14 => Some(Long) // sleeper
    case 0x15 => Some(Long) // sleep start
    case 0x17 => Some(Long) // container items
    case 0x06 => Some(Text)
    case 0x07 => Some(Text) // description
    case 0x13 => Some(Text) // written by
    case 0x08 => Some(Destination)
    case _ => None
  }

  // One attribute after its tag: the amount it sets, if it sets one.
  function ReadAttr(kind: AttrKind, s: Bytes, utf8: Bytes -> bool): (r: Read<Option<U8>, ParseError>)
    ensures r.Value? ==> |r.rest| <= |s|
  {
    match kind
    case Amount =>
      var (n, s) :- ReadU8(s);
      Value(Some(n), s)
    case Small =>
      var (_, s) :- ReadU8(s);
      Value(None, s)
    case Word =>
      var (_, s) :- ReadU16(s);
      Value(None, s)
    case Long =>
      var (_, s) :- ReadU32(s);
      Value(None, s)
    case Text =>
      var (_, s) :- ReadString(s, utf8);
      Value(None, s)
    case Destination =>
      var (_, s) :- ReadU16(s);
      var (_, s) :- ReadU16(s);
      var (_, s) :- ReadU8(s);
      Value(None, s)
  }

  function ParseAttrs(s: Bytes, amount: U8, utf8: Bytes -> bool): (r: Read<U8, ParseError>)
    ensures r.Value? ==> |r.rest| <= |s|
    decreases |s|
  {
    var (tag, s) :- DataByte(s);
    if tag.None? then Value(amount, s)
    else if KindOf(tag.value).None? then Fail(InvalidFormat)
    else
      var (given, s) :- ReadAttr(KindOf(tag.value).value, s, utf8);
      ParseAttrs(s, if given.Some? then given.value else amount, utf8)
  }

  // What lies inside an item that is no container is dropped.
  function MakeItem(id: U16, amount: U8, content: seq<LoadedItem>, items: Catalogue): Option<LoadedItem> {
    if id !in items then None
    else Some(LoadedItem(id, amount, if items[id] then Some(content) else None))
  }

  function ParseItem(s: Bytes, items: Catalogue, utf8: Bytes -> bool): (r: Read<LoadedItem, ParseError>)
    ensures r.Value? ==> |r.rest| < |s|
    decreases |s|, 1
  {
    var (id, s) :- ReadU16(s);
    var (amount, s) :- ParseAttrs(s, 1, utf8);
    var (content, s) :- ParseChildren(s, [], items, utf8);
    var (_, s) :- ExpectEnd(s);
    var item := MakeItem(id, amount, content, items);
    if item.None? then Fail(UnknownItem) else Value(item.value, s)
  }

  // The item nodes ahead, in order; nodes of any other type are skipped.
  function ParseChildren(s: Bytes, found: seq<LoadedItem>, items: Catalogue, utf8: Bytes -> bool)
    : (r: Read<seq<LoadedItem>, ParseError>)
    ensures r.Value? ==> |r.rest| <= |s|
    decreases |s|, 0
  {
    if !AtStart(s) then Value(found, s)
    else
      var (kind, s) :- RawByte(s[1..]);
      if kind == ITEM then
        var (item, s) :- ParseItem(s, items, utf8);
        ParseChildren(s, found + [item], items, utf8)
      else
        var (_, s) :- SkipNode(s);
        ParseChildren(s, found, items, utf8)
  }

  // Tile flags and the inline ground item.
  function ParseTileAttrs(s: Bytes, found: seq<LoadedItem>, items: Catalogue)
    : (r: Read<seq<LoadedItem>, ParseError>)
    ensures r.Value? ==> |r.rest| <= |s|
    decreases |s|
  {
    var (tag, s) :- DataByte(s);
    match tag
    case None => Value(found, s)
    case Some(t) =>
      if t == ATTR_TILE_FLAGS then
        var (_, s) :- ReadU32(s);
        ParseTileAttrs(s, found, items)
      else if t == ATTR_ITEM then
        var (id, s) :- ReadU16(s);
        var item := MakeItem(id, 1, [], items);
        if item.None? then Fail(UnknownItem) else ParseTileAttrs(s, found + [item.value], items)
      else Fail(InvalidFormat)
  }

  datatype LoadedTile = LoadedTile(pos: Position, items: seq<LoadedItem>)

  // The tile's place in its area.
  function ParseOffset(s: Bytes, base: Position): (r: Read<Position, ParseError>)
    ensures r.Value? ==> |r.rest| < |s|
  {
    var (dx, s) :- ReadU8(s);
    var (dy, s) :- ReadU8(s);
    if base.x + dx > U16_MAX || base.y + dy > U16_MAX then Fail(PositionOverflow)
    else Value(Position(base.x + dx, base.y + dy, base.z), s)
  }

  // A house tile carries a house id, which is not kept.
  function ParseHouse(s: Bytes, kind: U8): (r: Read<(), ParseError>)
    ensures r.Value? ==> |r.rest| <= |s|
  {
    if kind != HOUSE_TILE then Value((), s)
    else
      var (_, s) :- ReadU32(s);
      Value((), s)
  }

  // The tile with its ground items only.
  function ParseTileData(s: Bytes, base: Position, kind: U8, items: Catalogue): (r: Read<LoadedTile, ParseError>)
    ensures r.Value? ==> |r.rest| < |s|
  {
    var (pos, s) :- ParseOffset(s, base);
    var (_, s) :- ParseHouse(s, kind);
    var (ground, s) :- ParseTileAttrs(s, [], items);
    Value(LoadedTile(pos, ground), s)
  }

  function ParseTile(s: Bytes, base: Position, kind: U8, items: Catalogue, utf8: Bytes -> bool)
    : (r: Read<LoadedTile, ParseError>)
    ensures r.Value? ==> |r.rest| < |s|
  {
    TileWithChildren(ParseTileData(s, base, kind, items), items, utf8)
  }

  // The tile read so far, and then the items stacked on it.
  function TileWithChildren(data: Read<LoadedTile, ParseError>, items: Catalogue, utf8: Bytes -> bool)
    : (r: Read<LoadedTile, ParseError>)
    ensures r.Value? ==> data.Value? && |r.rest| < |data.rest|
  {
    var (tile, s) :- data;
    var (all, s) :- ParseChildren(s, tile.items, items, utf8);
    var (_, s) :- ExpectEnd(s);
    Value(tile.(items := all), s)
  }

  // ---------------------------------------------------------------- the cursor

  class Parser {
    const data: Bytes
    var pos: nat

    constructor (data: Bytes)
      ensures this.data == data && pos == 0
    {
      this.data := data;
      pos := 0;
    }

    ghost predicate Valid()
      reads this
    {
      pos <= |data|
    }

    ghost function Ahead(): Bytes
      reads this
      requires Valid()
    {
      data[pos..]
    }

    // What a step returned and where it left the cursor are what `read` says.
    ghost predicate Did<T>(r: Result<T, ParseError>, read: Read<T, ParseError>)
      reads this
    {
      && Valid()
      && match read
         case Value(v, rest) => r == Ok(v) && Ahead() == rest
         case Fail(e) => r == Err(e)
    }

    method ReadRaw() returns (r: Result<U8, ParseError>)
      requires Valid()
      modifies this
      ensures Did(r, RawByte(old(Ahead())))
    {
      if pos >= |data| { return Err(UnexpectedEof); }
      pos := pos + 1;
      return Ok(data[pos - 1]);
    }

    method ReadDataByte() returns (r: Result<Option<U8>, ParseError>)
      requires Valid()
      modifies this
      ensures Did(r, DataByte(old(Ahead())))
    {
      if pos >= |data| { return Err(UnexpectedEof); }
      var b := data[pos];
      if b == NODE_START || b == NODE_END { return Ok(None); }
      pos := pos + 1;
      if b == ESCAPE {
        var escaped :- ReadRaw();
        return Ok(Some(escaped));
      }
      return Ok(Some(b));
    }

    method NextU8() returns (r: Result<U8, ParseError>)
      requires Valid()
      modifies this
      ensures Did(r, ReadU8(old(Ahead())))
    {
      var b :- ReadDataByte();
      if b.None? { return Err(InvalidFormat); }
      return Ok(b.value);
    }

    method NextU16() returns (r: Result<U16, ParseError>)
      requires Valid()
      modifies this
      ensures Did(r, ReadU16(old(Ahead())))
    {
      var lo :- NextU8();
      var hi :- NextU8();
      return Ok(FromLe16(lo, hi));
    }

    method NextU32() returns (r: Result<U32, ParseError>)
      requires Valid()
      modifies this
      ensures Did(r, ReadU32(old(Ahead())))
    {
      var lo :- NextU16();
      var hi :- NextU16();
      return Ok(FromLe32(lo, hi));
    }

    method NextBytes(n: nat) returns (r: Result<Bytes, ParseError>)
      requires Valid()
      modifies this
      ensures Did(r, ReadBytes(old(Ahead()), n, []))
    {
      var read: Bytes := [];
      while |read| < n
        invariant Valid() && |read| <= n
        invariant ReadBytes(old(Ahead()), n, []) == ReadBytes(Ahead(), n - |read|, read)
      {
        var b :- NextU8();
        read := read + [b];
      }
      return Ok(read);
    }

    method NextString(utf8: Bytes -> bool) returns (r: Result<Bytes, ParseError>)
      requires Valid()
      modifies this
      ensures Did(r, ReadString(old(Ahead()), utf8))
    {
      var n :- NextU16();
      var read :- NextBytes(n);
      if !utf8(read) { return Err(InvalidString); }
      return Ok(read);
    }

    method SkipNodeData() returns (r: Result<(), ParseError>)
      requires Valid()
      modifies this
      ensures Did(r, SkipData(old(Ahead())))
    {
      while true
        invariant Valid() && SkipData(old(Ahead())) == SkipData(Ahead())
        decreases |data| - pos
      {
        ghost var before := |Ahead()|;
        var b :- ReadDataByte();
        if b.None? { return Ok(()); }
        assert |Ahead()| < before;
      }
    }

    method ExpectNodeEnd() returns (r: Result<(), ParseError>)
      requires Valid()
      modifies this
      ensures Did(r, ExpectEnd(old(Ahead())))
    {
      var b :- ReadRaw();
      if b != NODE_END { return Err(InvalidFormat); }
      return Ok(());
    }

    method SkipWholeNode() returns (r: Result<(), ParseError>)
      requires Valid()
      modifies this
      ensures Did(r, SkipNode(old(Ahead())))
      decreases |data| - pos, 2
    {
      var _ :- SkipNodeData();
      var _ :- SkipChildNodes();
      r := ExpectNodeEnd();
    }

    method SkipChildNodes() returns (r: Result<(), ParseError>)
      requires Valid()
      modifies this
      ensures Did(r, SkipChildren(old(Ahead())))
      decreases |data| - pos, 1
    {
      while pos < |data| && data[pos] == NODE_START
        invariant Valid() && |Ahead()| <= |old(Ahead())|
        invariant SkipChildren(old(Ahead())) == SkipChildren(Ahead())
        decreases |data| - pos
      {
        var _ :- SkipChild();
      }
      return Ok(());
    }

    // The next child node, when there is one.
    method SkipChild() returns (r: Result<(), ParseError>)
      requires Valid() && AtStart(Ahead())
      modifies this
      ensures Valid() && (r.Ok? ==> |Ahead()| < |old(Ahead())|)
      ensures r.Ok? ==> SkipChildren(old(Ahead())) == SkipChildren(Ahead())
      ensures r.Err? ==> Did(r, SkipChildren(old(Ahead())))
      decreases |data| - pos, 0
    {
      pos := pos + 1;
      var _ :- ReadRaw();
      r := SkipWholeNode();
    }

    method NextAttr(kind: AttrKind, utf8: Bytes -> bool) returns (r: Result<Option<U8>, ParseError>)
      requires Valid()
      modifies this
      ensures Did(r, ReadAttr(kind, old(Ahead()), utf8))
    {
      match kind {
        case Amount =>
          var n :- NextU8();
          return Ok(Some(n));
        case Small =>
          var _ :- NextU8();
        case Word =>
          var _ :- NextU16();
        case Long =>
          var _ :- NextU32();
        case Text =>
          var _ :- NextString(utf8);
        case Destination =>
          var _ :- NextU16();
          var _ :- NextU16();
          var _ :- NextU8();
      }
      return Ok(None);
    }

    method NextAttrs(utf8: Bytes -> bool) returns (r: Result<U8, ParseError>)
      requires Valid()
      modifies this
      ensures Did(r, ParseAttrs(old(Ahead()), 1, utf8))
    {
      var amount: U8 := 1;
      while true
        invariant Valid() && ParseAttrs(old(Ahead()), 1, utf8) == ParseAttrs(Ahead(), amount, utf8)
        decreases |data| - pos
      {
        ghost var before := |Ahead()|;
        var tag :- ReadDataByte();
        if tag.None? { return Ok(amount); }
        assert |Ahead()| < before;
        var kind := KindOf(tag.value);
        if kind.None? { return Err(InvalidFormat); }
        var given :- NextAttr(kind.value, utf8);
        amount := if given.Some? then given.value else amount;
        assert |Ahead()| < before;
      }
    }

    method NextItem(items: Catalogue, utf8: Bytes -> bool) returns (r: Result<LoadedItem, ParseError>)
      requires Valid()
      modifies this
      ensures Did(r, ParseItem(old(Ahead()), items, utf8))
      decreases |data| - pos, 2
    {
      var id :- NextU16();
      var amount :- NextAttrs(utf8);
      var content :- NextChildren([], items, utf8);
      var _ :- ExpectNodeEnd();
      var item := MakeItem(id, amount, content, items);
      if item.None? { return Err(UnknownItem); }
      return Ok(item.value);
    }

    // The loop over child nodes that items and tiles share.
    method NextChildren(start: seq<LoadedItem>, items: Catalogue, utf8: Bytes -> bool)
      returns (r: Result<seq<LoadedItem>, ParseError>)
      requires Valid()
      modifies this
      ensures Did(r, ParseChildren(old(Ahead()), start, items, utf8))
      decreases |data| - pos, 1
    {
      var found := start;
      while pos < |data| && data[pos] == NODE_START
        invariant Valid() && |Ahead()| <= |old(Ahead())|
        invariant ParseChildren(old(Ahead()), start, items, utf8) == ParseChildren(Ahead(), found, items, utf8)
        decreases |data| - pos
      {
        found :- NextChild(found, items, utf8);
      }
      return Ok(found);
    }

    // An item is kept, any other node is skipped.
    method NextChild(found: seq<LoadedItem>, items: Catalogue, utf8: Bytes -> bool)
      returns (r: Result<seq<LoadedItem>, ParseError>)
      requires Valid() && AtStart(Ahead())
      modifies this
      ensures Valid() && (r.Ok? ==> |Ahead()| < |old(Ahead())|)
      ensures r.Ok? ==>
                ParseChildren(old(Ahead()), found, items, utf8) == ParseChildren(Ahead(), r.value, items, utf8)
      ensures r.Err? ==> Did(r, ParseChildren(old(Ahead()), found, items, utf8))
      decreases |data| - pos, 0
    {
      pos := pos + 1;
      var kind :- ReadRaw();
      if kind != ITEM {
        var _ :- SkipWholeNode();
        return Ok(found);
      }
      var item :- NextItem(items, utf8);
      return Ok(found + [item]);
    }

    method NextTileAttrs(items: Catalogue) returns (r: Result<seq<LoadedItem>, ParseError>)
      requires Valid()
      modifies this
      ensures Did(r, ParseTileAttrs(old(Ahead()), [], items))
    {
      var found: seq<LoadedItem> := [];
      while true
        invariant Valid() && ParseTileAttrs(old(Ahead()), [], items) == ParseTileAttrs(Ahead(), found, items)
        decreases |data| - pos
      {
        ghost var before := |Ahead()|;
        var tag :- ReadDataByte();
        if tag.None? { return Ok(found); }
        assert |Ahead()| < before;
        if tag.value == ATTR_TILE_FLAGS {
          var _ :- NextU32();
        } else if tag.value == ATTR_ITEM {
          var id :- NextU16();
          var item := MakeItem(id, 1, [], items);
          if item.None? { return Err(UnknownItem); }
          found := found + [item.value];
        } else {
          return Err(InvalidFormat);
        }
        assert |Ahead()| < before;
      }
    }

    method NextOffset(base: Position) returns (r: Result<Position, ParseError>)
      requires Valid()
      modifies this
      ensures Did(r, ParseOffset(old(Ahead()), base))
    {
      var dx: int :- NextU8();
      var dy: int :- NextU8();
      if base.x + dx > U16_MAX || base.y + dy > U16_MAX { return Err(PositionOverflow); }
      return Ok(Position(base.x + dx, base.y + dy, base.z));
    }

    method NextHouse(kind: U8) returns (r: Result<(), ParseError>)
      requires Valid()
      modifies this
      ensures Did(r, ParseHouse(old(Ahead()), kind))
    {
      if kind == HOUSE_TILE {
        var _ :- NextU32();
      }
      return Ok(());
    }

    method NextTile(base: Position, kind: U8, items: Catalogue, utf8: Bytes -> bool)
      returns (r: Result<LoadedTile, ParseError>)
      requires Valid()
      modifies this
      ensures Did(r, ParseTile(old(Ahead()), base, kind, items, utf8))
    {
      var pos :- NextOffset(base);
      var _ :- NextHouse(kind);
      var ground :- NextTileAttrs(items);
      var all :- NextChildren(ground, items, utf8);
      var _ :- ExpectNodeEnd();
      return Ok(LoadedTile(pos, all));
    }
  }

  // ---------------------------------------------------------------- what an encoding is

  // `s` is the data `d` and then `rest`: each byte plain, or with an escape before it, which
  // the bytes the format uses for itself must have.
  ghost predicate IsData(s: Bytes, d: Bytes, rest: Bytes)
    decreases d
  {
    if d == [] then s == rest
    else if s == [] then false
    else if s[0] == 0xFD then |s| >= 2 && s[1] == d[0] && IsData(s[2..], d[1..], rest)
    else s[0] < 0xFD && s[0] == d[0] && IsData(s[1..], d[1..], rest)
  }

  datatype Node = Node(kind: U8, data: Bytes, children: seq<Node>)

  // `s` is the node, from its data to its end marker, and then `rest`.
  ghost predicate IsNode(s: Bytes, n: Node, rest: Bytes)
    decreases n, 0
  {
    exists mid :: IsData(s, n.data, mid) && IsNodes(mid, n.children, [0xFF] + rest)
  }

  // `s` is the nodes, each behind its start marker and type, and then `rest`.
  ghost predicate IsNodes(s: Bytes, ns: seq<Node>, rest: Bytes)
    decreases ns
  {
    if ns == [] then s == rest
    else
      && |s| >= 2 && s[0] == 0xFE && s[1] == ns[0].kind
      && exists mid :: IsNode(s[2..], ns[0], mid) && IsNodes(mid, ns[1..], rest)
  }

  // An encoding with no escape more than it needs.
  function PutData(d: Bytes, rest: Bytes): Bytes {
    if d == [] then rest
    else if d[0] >= 0xFD then [0xFD, d[0]] + PutData(d[1..], rest)
    else [d[0]] + PutData(d[1..], rest)
  }

  function PutNode(n: Node, rest: Bytes): Bytes
    decreases n, 0
  {
    PutData(n.data, PutNodes(n.children, [0xFF] + rest))
  }

  function PutNodes(ns: seq<Node>, rest: Bytes): Bytes
    decreases ns
  {
    if ns == [] then rest
    else [0xFE, ns[0].kind] + PutNode(ns[0], PutNodes(ns[1..], rest))
  }

  lemma {:induction false} PutDataIsData(d: Bytes, rest: Bytes)
    ensures IsData(PutData(d, rest), d, rest)
  {
    if d != [] {
      var tail := PutData(d[1..], rest);
      PutDataIsData(d[1..], rest);
      assert d[0] >= 0xFD ==> ([0xFD, d[0]] + tail)[2..] == tail;
      assert ([d[0]] + tail)[1..] == tail;
    }
  }

  // So every tree has an encoding.
  lemma {:induction false} PutNodeIsNode(n: Node, rest: Bytes)
    ensures IsNode(PutNode(n, rest), n, rest)
    decreases n, 0
  {
    PutDataIsData(n.data, PutNodes(n.children, [0xFF] + rest));
    PutNodesAreNodes(n.children, [0xFF] + rest);
  }

  lemma {:induction false} PutNodesAreNodes(ns: seq<Node>, rest: Bytes)
    ensures IsNodes(PutNodes(ns, rest), ns, rest)
    decreases ns
  {
    if ns != [] {
      var tail := PutNodes(ns[1..], rest);
      PutNodeIsNode(ns[0], tail);
      PutNodesAreNodes(ns[1..], rest);
      assert ([0xFE, ns[0].kind] + PutNode(ns[0], tail))[2..] == PutNode(ns[0], tail);
    }
  }

  // Where the data of a node ends and its children begin.
  lemma NodeParts(s: Bytes, n: Node, rest: Bytes) returns (mid: Bytes)
    requires IsNode(s, n, rest)
    ensures IsData(s, n.data, mid) && IsNodes(mid, n.children, [0xFF] + rest) && AtBoundary(mid)
  {
    mid :| IsData(s, n.data, mid) && IsNodes(mid, n.children, [0xFF] + rest);
  }

  lemma EndIsRead(rest: Bytes)
    ensures ExpectEnd([0xFF] + rest) == Value((), rest) && !AtStart([0xFF] + rest)
  {
    assert ([0xFF] + rest)[1..] == rest;
  }

  // ---------------------------------------------------------------- bytes of data

  lemma ByteIsRead(s: Bytes, d: Bytes, rest: Bytes) returns (mid: Bytes)
    requires d != [] && IsData(s, d, rest)
    ensures DataByte(s) == Value(Some(d[0]), mid) && IsData(mid, d[1..], rest)
  {
    if s[0] == 0xFD {
      mid := s[2..];
      assert s[1..][1..] == mid;
    } else {
      mid := s[1..];
    }
  }

  lemma ByteWasWritten(s: Bytes, d: Bytes, rest: Bytes)
    requires DataByte(s).Value? && DataByte(s).v.Some? && IsData(DataByte(s).rest, d, rest)
    ensures IsData(s, [DataByte(s).v.value] + d, rest)
  {
    assert ([DataByte(s).v.value] + d)[1..] == d;
    if s[0] == 0xFD { assert s[1..][1..] == s[2..]; }
  }

  // ---------------------------------------------------------------- skipping

  lemma {:induction false} DataIsSkipped(s: Bytes, d: Bytes, rest: Bytes)
    requires IsData(s, d, rest) && AtBoundary(rest)
    ensures SkipData(s) == Value((), rest)
    decreases d
  {
    if d != [] {
      var mid := ByteIsRead(s, d, rest);
      DataIsSkipped(mid, d[1..], rest);
    }
  }

  lemma {:induction false} SkippedWasData(s: Bytes) returns (d: Bytes)
    requires SkipData(s).Value?
    ensures IsData(s, d, SkipData(s).rest) && AtBoundary(SkipData(s).rest)
    decreases |s|
  {
    var r := DataByte(s);
    if r.v.None? {
      d := [];
    } else {
      var tail := SkippedWasData(r.rest);
      ByteWasWritten(s, tail, SkipData(s).rest);
      d := [r.v.value] + tail;
    }
  }

  lemma {:induction false} NodeIsSkipped(s: Bytes, n: Node, rest: Bytes)
    requires IsNode(s, n, rest)
    ensures SkipNode(s) == Value((), rest)
    decreases n, 0
  {
    var mid := NodeParts(s, n, rest);
    DataIsSkipped(s, n.data, mid);
    EndIsRead(rest);
    NodesAreSkipped(mid, n.children, [0xFF] + rest);
  }

  lemma {:induction false} NodesAreSkipped(s: Bytes, ns: seq<Node>, rest: Bytes)
    requires IsNodes(s, ns, rest) && !AtStart(rest)
    ensures SkipChildren(s) == Value((), rest)
    decreases ns
  {
    if ns != [] {
      var mid :| IsNode(s[2..], ns[0], mid) && IsNodes(mid, ns[1..], rest);
      assert s[1..][1..] == s[2..];
      NodeIsSkipped(s[2..], ns[0], mid);
      NodesAreSkipped(mid, ns[1..], rest);
    }
  }

  lemma {:induction false} SkippedWasANode(s: Bytes, kind: U8) returns (n: Node)
    requires SkipNode(s).Value?
    ensures n.kind == kind && IsNode(s, n, SkipNode(s).rest)
    decreases |s|, 1
  {
    var mid, rest := SkipData(s).rest, SkipNode(s).rest;
    var d := SkippedWasData(s);
    var ns := SkippedWereNodes(mid);
    var end := SkipChildren(mid).rest;
    assert end == [0xFF] + rest;
    n := Node(kind, d, ns);
    assert IsData(s, n.data, mid) && IsNodes(mid, n.children, [0xFF] + rest);
  }

  lemma {:induction false} SkippedWereNodes(s: Bytes) returns (ns: seq<Node>)
    requires SkipChildren(s).Value?
    ensures IsNodes(s, ns, SkipChildren(s).rest) && !AtStart(SkipChildren(s).rest)
    decreases |s|, 0
  {
    if !AtStart(s) {
      ns := [];
    } else {
      var mid := SkipNode(s[2..]).rest;
      assert s[1..][1..] == s[2..];
      var n := SkippedWasANode(s[2..], s[1]);
      var tail := SkippedWereNodes(mid);
      ns := [n] + tail;
      assert ns[1..] == tail && IsNode(s[2..], ns[0], mid);
    }
  }

  // Skipping takes exactly one node: it gets to `rest` if and only if one is encoded before it.
  lemma SkipTakesOneNode(s: Bytes, rest: Bytes)
    ensures SkipNode(s) == Value((), rest) <==> exists n :: IsNode(s, n, rest)
  {
    if SkipNode(s) == Value((), rest) {
      var n := SkippedWasANode(s, 0);
      assert IsNode(s, n, rest);
    }
    forall n | IsNode(s, n, rest) ensures SkipNode(s) == Value((), rest) { NodeIsSkipped(s, n, rest); }
  }

  // ---------------------------------------------------------------- item trees

  // An attribute by what it says about the item.
  datatype Attr =
    | Count(n: U8)
    | RuneCharges(n: U8)
    | DecayingState(n: U8)
    | HouseDoor(n: U8)
    | Charges(w: U16)
    | ActionId(w: U16)
    | UniqueId(w: U16)
    | DepotId(w: U16)
    | Duration(l: U32)
    | WrittenDate(l: U32)
    | SleeperGuid(l: U32)
    | SleepStart(l: U32)
    | ContainerItems(l: U32)
    | Inscription(text: Bytes)
    | Description(text: Bytes)
    | WrittenBy(text: Bytes)
    | TeleportTo(x: U16, y: U16, z: U8)

  function TagOf(a: Attr): U8 {
    match a
    case ActionId(_) => 0x04
    case UniqueId(_) => 0x05
    case Inscription(_) => 0x06
    case Description(_) => 0x07
    case TeleportTo(_, _, _) => 0x08
    case DepotId(_) => 0x0A
    case RuneCharges(_) => 0x0C
    case HouseDoor(_) => 0x0E
    case Count(_) => 0x0F
    case Duration(_) => 0x10
    case DecayingState(_) => 0x11
    case WrittenDate(_) => 0x12
    case WrittenBy(_) => 0x13
    case SleeperGuid(_) => 0x14
    case SleepStart(_) => 0x15
    case Charges(_) => 0x16
    case ContainerItems(_) => 0x17
  }

  function Sized(text: Bytes): Bytes { Le16(Min(|text|, U16_MAX)) + text }

  function ValueBytes(a: Attr): Bytes {
    if a.Count? || a.RuneCharges? || a.DecayingState? || a.HouseDoor? then [a.n]
    else if a.Charges? || a.ActionId? || a.UniqueId? || a.DepotId? then Le16(a.w)
    else if a.TeleportTo? then Le16(a.x) + (Le16(a.y) + [a.z])
    else if a.Inscription? || a.Description? || a.WrittenBy? then Sized(a.text)
    else Le32(a.l)
  }

  // Texts have a length of sixteen bits.
  predicate AttrOk(a: Attr, utf8: Bytes -> bool) {
    a.Inscription? || a.Description? || a.WrittenBy? ==> |a.text| <= U16_MAX && utf8(a.text)
  }

  function AttrsBytes(attrs: seq<Attr>): Bytes {
    if attrs == [] then [] else [TagOf(attrs[0])] + (ValueBytes(attrs[0]) + AttrsBytes(attrs[1..]))
  }

  // An item as a map editor writes it: any known attributes, and children that are items
  // again or nodes of other types.
  datatype Branch =
    | MapItem(id: U16, attrs: seq<Attr>, children: seq<Branch>)
    | Foreign(node: Node)

  ghost predicate AllAttrsOk(attrs: seq<Attr>, utf8: Bytes -> bool) {
    forall i :: 0 <= i < |attrs| ==> AttrOk(attrs[i], utf8)
  }

  ghost predicate BranchOk(b: Branch, items: Catalogue, utf8: Bytes -> bool)
    decreases b, 0
  {
    match b
    case MapItem(id, attrs, children) => id in items && AllAttrsOk(attrs, utf8) && AllOk(children, items, utf8)
    case Foreign(node) => node.kind != 0x06
  }

  ghost predicate AllOk(bs: seq<Branch>, items: Catalogue, utf8: Bytes -> bool)
    decreases bs
  {
    bs != [] ==> BranchOk(bs[0], items, utf8) && AllOk(bs[1..], items, utf8)
  }

  function NodeOf(b: Branch): Node
    decreases b, 0
  {
    match b
    case MapItem(id, attrs, children) => Node(0x06, Le16(id) + AttrsBytes(attrs), NodesOf(children))
    case Foreign(node) => node
  }

  function NodesOf(bs: seq<Branch>): (r: seq<Node>)
    ensures |r| == |bs|
    decreases bs
  {
    if bs == [] then [] else [NodeOf(bs[0])] + NodesOf(bs[1..])
  }

  // What the tree means: the last count or rune charge given, one if none is, and the items
  // among the children.
  function Given(a: Attr): Option<U8> { if a.Count? || a.RuneCharges? then Some(a.n) else None }

  function AmountOf(attrs: seq<Attr>, default: U8): U8 {
    if attrs == [] then default
    else AmountOf(attrs[1..], if Given(attrs[0]).Some? then Given(attrs[0]).value else default)
  }

  function Meaning(m: Branch, items: Catalogue): LoadedItem
    requires m.MapItem?
    decreases m, 0
  {
    LoadedItem(m.id, AmountOf(m.attrs, 1),
               if m.id in items && items[m.id] then Some(Contents(m.children, items)) else None)
  }

  function Contents(bs: seq<Branch>, items: Catalogue): seq<LoadedItem>
    decreases bs
  {
    if bs == [] then [] else ItemOf(bs[0], items) + Contents(bs[1..], items)
  }

  function ItemOf(b: Branch, items: Catalogue): seq<LoadedItem>
    decreases b, 1
  {
    if b.MapItem? then [Meaning(b, items)] else []
  }

  // ---------------------------------------------------------------- fields are read as they were written

  lemma U8IsRead(s: Bytes, b: U8, d: Bytes, rest: Bytes) returns (mid: Bytes)
    requires IsData(s, [b] + d, rest)
    ensures ReadU8(s) == Value(b, mid) && IsData(mid, d, rest)
  {
    mid := ByteIsRead(s, [b] + d, rest);
    assert ([b] + d)[1..] == d;
  }

  lemma TwoBytesAreRead(s: Bytes, b: Bytes, d: Bytes, rest: Bytes) returns (mid: Bytes)
    requires |b| == 2 && IsData(s, b + d, rest)
    ensures ReadU16(s) == Value(FromLe16(b[0], b[1]), mid) && IsData(mid, d, rest)
  {
    assert b + d == [b[0]] + ([b[1]] + d);
    var s1 := U8IsRead(s, b[0], [b[1]] + d, rest);
    mid := U8IsRead(s1, b[1], d, rest);
  }

  lemma FourBytesAreRead(s: Bytes, b: Bytes, d: Bytes, rest: Bytes) returns (mid: Bytes)
    requires |b| == 4 && IsData(s, b + d, rest)
    ensures ReadU32(s) == Value(FromLe32(FromLe16(b[0], b[1]), FromLe16(b[2], b[3])), mid) && IsData(mid, d, rest)
  {
    assert b + d == b[..2] + (b[2..] + d);
    var s1 := TwoBytesAreRead(s, b[..2], b[2..] + d, rest);
    mid := TwoBytesAreRead(s1, b[2..], d, rest);
  }

  lemma U16IsRead(s: Bytes, n: U16, d: Bytes, rest: Bytes) returns (mid: Bytes)
    requires IsData(s, Le16(n) + d, rest)
    ensures ReadU16(s) == Value(n, mid) && IsData(mid, d, rest)
  {
    mid := TwoBytesAreRead(s, Le16(n), d, rest);
  }

  lemma {:induction false} BytesAreRead(s: Bytes, text: Bytes, d: Bytes, rest: Bytes, read: Bytes)
    returns (mid: Bytes)
    requires IsData(s, text + d, rest)
    ensures ReadBytes(s, |text|, read) == Value(read + text, mid) && IsData(mid, d, rest)
    decreases text
  {
    if text == [] {
      assert text + d == d && read + text == read;
      mid := s;
    } else {
      assert text + d == [text[0]] + (text[1..] + d);
      var s1 := U8IsRead(s, text[0], text[1..] + d, rest);
      mid := BytesAreRead(s1, text[1..], d, rest, read + [text[0]]);
      assert read + [text[0]] + text[1..] == read + text;
    }
  }

  lemma StringIsRead(s: Bytes, text: Bytes, d: Bytes, rest: Bytes, utf8: Bytes -> bool) returns (mid: Bytes)
    requires |text| <= U16_MAX && utf8(text) && IsData(s, Sized(text) + d, rest)
    ensures ReadString(s, utf8) == Value(text, mid) && IsData(mid, d, rest)
  {
    Assoc(Le16(|text|), text, d);
    var s1 := U16IsRead(s, |text|, text + d, rest);
    mid := BytesAreRead(s1, text, d, rest, []);
    assert [] + text == text;
  }

  lemma DestinationIsRead(s: Bytes, x: U16, y: U16, z: U8, d: Bytes, rest: Bytes, utf8: Bytes -> bool)
    returns (mid: Bytes)
    requires IsData(s, Le16(x) + (Le16(y) + [z]) + d, rest)
    ensures ReadAttr(Destination, s, utf8) == Value(None, mid) && IsData(mid, d, rest)
  {
    Assoc(Le16(x), Le16(y) + [z], d);
    Assoc(Le16(y), [z], d);
    var s1 := U16IsRead(s, x, Le16(y) + ([z] + d), rest);
    var s2 := U16IsRead(s1, y, [z] + d, rest);
    mid := U8IsRead(s2, z, d, rest);
  }

  // How wide the value of an attribute is.
  function WidthOf(a: Attr): AttrKind {
    if Given(a).Some? then Amount
    else if a.DecayingState? || a.HouseDoor? then Small
    else if a.Charges? || a.ActionId? || a.UniqueId? || a.DepotId? then Word
    else if a.TeleportTo? then Destination
    else if a.Inscription? || a.Description? || a.WrittenBy? then Text
    else Long
  }

  lemma TagGivesTheWidth(a: Attr)
    ensures KindOf(TagOf(a)) == Some(WidthOf(a))
  {
  }

  lemma AttrIsRead(s: Bytes, a: Attr, d: Bytes, rest: Bytes, utf8: Bytes -> bool) returns (mid: Bytes)
    requires AttrOk(a, utf8) && IsData(s, ValueBytes(a) + d, rest)
    ensures KindOf(TagOf(a)).Some? && ReadAttr(KindOf(TagOf(a)).value, s, utf8) == Value(Given(a), mid)
    ensures IsData(mid, d, rest)
  {
    TagGivesTheWidth(a);
    mid := ValueIsRead(s, a, d, rest, utf8);
  }

  lemma ValueIsRead(s: Bytes, a: Attr, d: Bytes, rest: Bytes, utf8: Bytes -> bool) returns (mid: Bytes)
    requires AttrOk(a, utf8) && IsData(s, ValueBytes(a) + d, rest)
    ensures ReadAttr(WidthOf(a), s, utf8) == Value(Given(a), mid) && IsData(mid, d, rest)
  {
    match WidthOf(a) {
      case Amount => mid := U8IsRead(s, a.n, d, rest);
      case Small => mid := U8IsRead(s, a.n, d, rest);
      case Word => mid := U16IsRead(s, a.w, d, rest);
      case Long => mid := FourBytesAreRead(s, Le32(a.l), d, rest);
      case Text => mid := StringIsRead(s, a.text, d, rest, utf8);
      case Destination => mid := DestinationIsRead(s, a.x, a.y, a.z, d, rest, utf8);
    }
  }

  lemma {:induction false} AttrsAreRead(s: Bytes, attrs: seq<Attr>, amount: U8, rest: Bytes, utf8: Bytes -> bool)
    requires AtBoundary(rest) && AllAttrsOk(attrs, utf8) && IsData(s, AttrsBytes(attrs), rest)
    ensures ParseAttrs(s, amount, utf8) == Value(AmountOf(attrs, amount), rest)
    decreases attrs
  {
    if attrs != [] {
      var a, tail := attrs[0], AttrsBytes(attrs[1..]);
      var s1 := ByteIsRead(s, AttrsBytes(attrs), rest);
      assert AttrsBytes(attrs)[1..] == ValueBytes(a) + tail;
      var s2 := AttrIsRead(s1, a, tail, rest, utf8);
      AttrsAreRead(s2, attrs[1..], if Given(a).Some? then Given(a).value else amount, rest, utf8);
    }
  }

  lemma {:induction false} ItemIsRead(s: Bytes, m: Branch, rest: Bytes, items: Catalogue, utf8: Bytes -> bool)
    requires m.MapItem? && BranchOk(m, items, utf8) && IsNode(s, NodeOf(m), rest)
    ensures ParseItem(s, items, utf8) == Value(Meaning(m, items), rest)
    decreases m, 0
  {
    var mid := NodeParts(s, NodeOf(m), rest);
    var s1 := U16IsRead(s, m.id, AttrsBytes(m.attrs), mid);
    AttrsAreRead(s1, m.attrs, 1, mid, utf8);
    EndIsRead(rest);
    ChildrenAreRead(mid, m.children, [], [0xFF] + rest, items, utf8);
    assert [] + Contents(m.children, items) == Contents(m.children, items);
  }

  lemma {:induction false} ChildrenAreRead(s: Bytes, bs: seq<Branch>, found: seq<LoadedItem>, rest: Bytes,
                                           items: Catalogue, utf8: Bytes -> bool)
    requires AllOk(bs, items, utf8) && !AtStart(rest) && IsNodes(s, NodesOf(bs), rest)
    ensures ParseChildren(s, found, items, utf8) == Value(found + Contents(bs, items), rest)
    decreases bs, 1
  {
    if bs == [] {
      assert found + [] == found;
    } else {
      var mid := FirstChildIsRead(s, bs, found, rest, items, utf8);
      ChildrenAreRead(mid, bs[1..], found + ItemOf(bs[0], items), rest, items, utf8);
      Regroup(found, ItemOf(bs[0], items), Contents(bs[1..], items));
    }
  }

  lemma Regroup<T>(a: seq<T>, b: seq<T>, c: seq<T>)
    ensures a + b + c == a + (b + c)
  {
  }

  lemma {:induction false} FirstChildIsRead(s: Bytes, bs: seq<Branch>, found: seq<LoadedItem>, rest: Bytes,
                                            items: Catalogue, utf8: Bytes -> bool)
    returns (mid: Bytes)
    requires bs != [] && BranchOk(bs[0], items, utf8) && IsNodes(s, NodesOf(bs), rest)
    ensures ParseChildren(s, found, items, utf8) == ParseChildren(mid, found + ItemOf(bs[0], items), items, utf8)
    ensures IsNodes(mid, NodesOf(bs[1..]), rest)
    decreases bs, 0
  {
    mid := FirstNode(s, bs, rest);
    if bs[0].MapItem? {
      ItemIsRead(s[2..], bs[0], mid, items, utf8);
    } else {
      NodeIsSkipped(s[2..], bs[0].node, mid);
    }
    FirstChildIsTaken(s, found, bs[0], mid, items, utf8);
  }

  lemma FirstNode(s: Bytes, bs: seq<Branch>, rest: Bytes) returns (mid: Bytes)
    requires bs != [] && IsNodes(s, NodesOf(bs), rest)
    ensures AtStart(s) && |s| >= 2 && s[1] == NodeOf(bs[0]).kind
    ensures IsNode(s[2..], NodeOf(bs[0]), mid) && IsNodes(mid, NodesOf(bs[1..]), rest)
  {
    var ns := NodesOf(bs);
    assert ns[0] == NodeOf(bs[0]) && ns[1..] == NodesOf(bs[1..]);
    mid :| IsNode(s[2..], ns[0], mid) && IsNodes(mid, ns[1..], rest);
  }

  // What becomes of the first child: an item is kept, another node skipped.
  lemma FirstChildIsTaken(s: Bytes, found: seq<LoadedItem>, b: Branch, mid: Bytes, items: Catalogue,
                          utf8: Bytes -> bool)
    requires AtStart(s) && |s| >= 2 && (s[1] == ITEM <==> b.MapItem?)
    requires if b.MapItem? then ParseItem(s[2..], items, utf8) == Value(Meaning(b, items), mid)
             else SkipNode(s[2..]) == Value((), mid)
    ensures ParseChildren(s, found, items, utf8) == ParseChildren(mid, found + ItemOf(b, items), items, utf8)
  {
    assert s[1..][1..] == s[2..];
    assert found + [] == found;
  }

  // ---------------------------------------------------------------- what is read was written

  lemma U8WasWritten(s: Bytes, d: Bytes, rest: Bytes)
    requires ReadU8(s).Value? && IsData(ReadU8(s).rest, d, rest)
    ensures IsData(s, [ReadU8(s).v] + d, rest)
  {
    ByteWasWritten(s, d, rest);
  }

  lemma U16WasWritten(s: Bytes, d: Bytes, rest: Bytes)
    requires ReadU16(s).Value? && IsData(ReadU16(s).rest, d, rest)
    ensures IsData(s, Le16(ReadU16(s).v) + d, rest)
  {
    var lo := ReadU8(s);
    var hi := ReadU8(lo.rest);
    U8WasWritten(lo.rest, d, rest);
    U8WasWritten(s, [hi.v] + d, rest);
    Le16Of(lo.v, hi.v);
    assert [lo.v] + ([hi.v] + d) == [lo.v, hi.v] + d;
  }

  lemma U32WasWritten(s: Bytes, d: Bytes, rest: Bytes)
    requires ReadU32(s).Value? && IsData(ReadU32(s).rest, d, rest)
    ensures IsData(s, Le32(ReadU32(s).v) + d, rest)
  {
    var lo := ReadU16(s);
    var hi := ReadU16(lo.rest);
    U16WasWritten(lo.rest, d, rest);
    U16WasWritten(s, Le16(hi.v) + d, rest);
    Le32Of(lo.v, hi.v);
    Assoc(Le16(lo.v), Le16(hi.v), d);
  }

  lemma {:induction false} BytesWereWritten(s: Bytes, n: nat, read: Bytes, d: Bytes, rest: Bytes) returns (text: Bytes)
    requires ReadBytes(s, n, read).Value? && IsData(ReadBytes(s, n, read).rest, d, rest)
    ensures |text| == n && ReadBytes(s, n, read).v == read + text && IsData(s, text + d, rest)
    decreases n
  {
    if n == 0 {
      text := [];
      assert text + d == d && read + text == read;
    } else {
      var b := ReadU8(s);
      var tail := BytesWereWritten(b.rest, n - 1, read + [b.v], d, rest);
      U8WasWritten(s, tail + d, rest);
      text := [b.v] + tail;
      assert text + d == [b.v] + (tail + d) && read + text == read + [b.v] + tail;
    }
  }

  lemma StringWasWritten(s: Bytes, n: U16, s1: Bytes, d: Bytes, rest: Bytes)
    requires ReadU16(s) == Value(n, s1) && ReadBytes(s1, n, []).Value?
    requires IsData(ReadBytes(s1, n, []).rest, d, rest)
    ensures var text := ReadBytes(s1, n, []).v; |text| <= U16_MAX && IsData(s, Sized(text) + d, rest)
  {
    var text := BytesWereWritten(s1, n, [], d, rest);
    assert [] + text == text;
    U16WasWritten(s, text + d, rest);
    Assoc(Le16(|text|), text, d);
  }

  lemma DestinationWasWritten(tag: U8, s: Bytes, utf8: Bytes -> bool, d: Bytes, rest: Bytes) returns (a: Attr)
    requires KindOf(tag) == Some(Destination) && ReadAttr(Destination, s, utf8).Value?
    requires IsData(ReadAttr(Destination, s, utf8).rest, d, rest)
    ensures TagOf(a) == tag && AttrOk(a, utf8) && Given(a) == ReadAttr(Destination, s, utf8).v
    ensures IsData(s, ValueBytes(a) + d, rest)
  {
    var x := ReadU16(s);
    var y := ReadU16(x.rest);
    var z := ReadU8(y.rest);
    U8WasWritten(y.rest, d, rest);
    U16WasWritten(x.rest, [z.v] + d, rest);
    U16WasWritten(s, Le16(y.v) + ([z.v] + d), rest);
    DestinationHasItsTag(tag, x.v, y.v, z.v, d);
    a := TeleportTo(x.v, y.v, z.v);
  }

  lemma DestinationHasItsTag(tag: U8, x: U16, y: U16, z: U8, d: Bytes)
    requires KindOf(tag) == Some(Destination)
    ensures TagOf(TeleportTo(x, y, z)) == tag && Given(TeleportTo(x, y, z)).None?
    ensures ValueBytes(TeleportTo(x, y, z)) + d == Le16(x) + (Le16(y) + ([z] + d))
  {
    Assoc(Le16(y), [z], d);
    Assoc(Le16(x), Le16(y) + [z], d);
  }

  // The attribute with a tag and a value.
  function AmountAttr(tag: U8, n: U8): Attr { if tag == 0x0F then Count(n) else RuneCharges(n) }

  function SmallAttr(tag: U8, n: U8): Attr { if tag == 0x11 then DecayingState(n) else HouseDoor(n) }

  function WordAttr(tag: U8, w: U16): Attr {
    if tag == 0x16 then Charges(w) else if tag == 0x04 then ActionId(w)
    else if tag == 0x05 then UniqueId(w) else DepotId(w)
  }

  function LongAttr(tag: U8, l: U32): Attr {
    if tag == 0x10 then Duration(l) else if tag == 0x12 then WrittenDate(l)
    else if tag == 0x14 then SleeperGuid(l) else if tag == 0x15 then SleepStart(l) else ContainerItems(l)
  }

  function TextAttr(tag: U8, text: Bytes): Attr {
    if tag == 0x06 then Inscription(text) else if tag == 0x07 then Description(text) else WrittenBy(text)
  }

  lemma AttrWasWritten(kind: AttrKind, tag: U8, s: Bytes, utf8: Bytes -> bool, d: Bytes, rest: Bytes)
    returns (a: Attr)
    requires KindOf(tag) == Some(kind) && ReadAttr(kind, s, utf8).Value?
    requires IsData(ReadAttr(kind, s, utf8).rest, d, rest)
    ensures TagOf(a) == tag && AttrOk(a, utf8) && Given(a) == ReadAttr(kind, s, utf8).v
    ensures IsData(s, ValueBytes(a) + d, rest)
  {
    match kind {
      case Amount => a := AmountWasWritten(tag, s, utf8, d, rest);
      case Small => a := SmallWasWritten(tag, s, utf8, d, rest);
      case Word => a := WordWasWritten(tag, s, utf8, d, rest);
      case Long => a := LongWasWritten(tag, s, utf8, d, rest);
      case Text => a := TextWasWritten(tag, s, ReadU16(s).v, ReadU16(s).rest, utf8, d, rest);
      case Destination => a := DestinationWasWritten(tag, s, utf8, d, rest);
    }
  }

  lemma AmountWasWritten(tag: U8, s: Bytes, utf8: Bytes -> bool, d: Bytes, rest: Bytes) returns (a: Attr)
    requires KindOf(tag) == Some(Amount) && ReadAttr(Amount, s, utf8).Value?
    requires IsData(ReadAttr(Amount, s, utf8).rest, d, rest)
    ensures TagOf(a) == tag && AttrOk(a, utf8) && Given(a) == ReadAttr(Amount, s, utf8).v
    ensures IsData(s, ValueBytes(a) + d, rest)
  {
    U8WasWritten(s, d, rest);
    a := AmountAttr(tag, ReadU8(s).v);
  }

  lemma SmallWasWritten(tag: U8, s: Bytes, utf8: Bytes -> bool, d: Bytes, rest: Bytes) returns (a: Attr)
    requires KindOf(tag) == Some(Small) && ReadAttr(Small, s, utf8).Value?
    requires IsData(ReadAttr(Small, s, utf8).rest, d, rest)
    ensures TagOf(a) == tag && AttrOk(a, utf8) && Given(a) == ReadAttr(Small, s, utf8).v
    ensures IsData(s, ValueBytes(a) + d, rest)
  {
    U8WasWritten(s, d, rest);
    a := SmallAttr(tag, ReadU8(s).v);
  }

  lemma WordWasWritten(tag: U8, s: Bytes, utf8: Bytes -> bool, d: Bytes, rest: Bytes) returns (a: Attr)
    requires KindOf(tag) == Some(Word) && ReadAttr(Word, s, utf8).Value?
    requires IsData(ReadAttr(Word, s, utf8).rest, d, rest)
    ensures TagOf(a) == tag && AttrOk(a, utf8) && Given(a) == ReadAttr(Word, s, utf8).v
    ensures IsData(s, ValueBytes(a) + d, rest)
  {
    U16WasWritten(s, d, rest);
    a := WordAttr(tag, ReadU16(s).v);
  }

  lemma LongWasWritten(tag: U8, s: Bytes, utf8: Bytes -> bool, d: Bytes, rest: Bytes) returns (a: Attr)
    requires KindOf(tag) == Some(Long) && ReadAttr(Long, s, utf8).Value?
    requires IsData(ReadAttr(Long, s, utf8).rest, d, rest)
    ensures TagOf(a) == tag && AttrOk(a, utf8) && Given(a) == ReadAttr(Long, s, utf8).v
    ensures IsData(s, ValueBytes(a) + d, rest)
  {
    U32WasWritten(s, d, rest);
    a := LongAttr(tag, ReadU32(s).v);
    LongHasItsTag(tag, ReadU32(s).v);
  }

  lemma TextHasItsTag(tag: U8, text: Bytes)
    requires KindOf(tag) == Some(Text) && |text| <= U16_MAX
    ensures var a := TextAttr(tag, text);
            TagOf(a) == tag && ValueBytes(a) == Sized(text) && Given(a).None?
            && (a.Inscription? || a.Description? || a.WrittenBy?) && a.text == text
  {
  }

  lemma LongHasItsTag(tag: U8, l: U32)
    requires KindOf(tag) == Some(Long)
    ensures var a := LongAttr(tag, l);
            TagOf(a) == tag && ValueBytes(a) == Le32(l) && Given(a).None?
            && !(a.Inscription? || a.Description? || a.WrittenBy?)
  {
  }

  lemma TextWasWritten(tag: U8, s: Bytes, n: U16, s1: Bytes, utf8: Bytes -> bool, d: Bytes, rest: Bytes)
    returns (a: Attr)
    requires KindOf(tag) == Some(Text)
    requires ReadU16(s) == Value(n, s1) && ReadBytes(s1, n, []).Value? && utf8(ReadBytes(s1, n, []).v)
    requires IsData(ReadBytes(s1, n, []).rest, d, rest)
    ensures TagOf(a) == tag && AttrOk(a, utf8) && Given(a).None? && IsData(s, ValueBytes(a) + d, rest)
  {
    StringWasWritten(s, n, s1, d, rest);
    a := TextAttr(tag, ReadBytes(s1, n, []).v);
    TextHasItsTag(tag, a.text);
  }

  lemma {:induction false} AttrsWereWritten(s: Bytes, amount: U8, utf8: Bytes -> bool) returns (attrs: seq<Attr>)
    requires ParseAttrs(s, amount, utf8).Value?
    ensures AllAttrsOk(attrs, utf8) && AmountOf(attrs, amount) == ParseAttrs(s, amount, utf8).v
    ensures IsData(s, AttrsBytes(attrs), ParseAttrs(s, amount, utf8).rest)
    ensures AtBoundary(ParseAttrs(s, amount, utf8).rest)
    decreases |s|
  {
    var tag := DataByte(s);
    if tag.v.None? {
      attrs := [];
    } else {
      var rest := ParseAttrs(s, amount, utf8).rest;
      var given := ReadAttr(KindOf(tag.v.value).value, tag.rest, utf8);
      var tail := AttrsWereWritten(given.rest, if given.v.Some? then given.v.value else amount, utf8);
      var a := AttrWasWritten(KindOf(tag.v.value).value, tag.v.value, tag.rest, utf8, AttrsBytes(tail), rest);
      ByteWasWritten(s, ValueBytes(a) + AttrsBytes(tail), rest);
      attrs := [a] + tail;
      assert attrs[1..] == tail;
    }
  }

  lemma EndWasWritten(s: Bytes)
    requires ExpectEnd(s).Value?
    ensures s == [0xFF] + ExpectEnd(s).rest
  {
  }

  lemma {:induction false} ItemWasWritten(s: Bytes, items: Catalogue, utf8: Bytes -> bool) returns (m: Branch)
    requires ParseItem(s, items, utf8).Value?
    ensures m.MapItem? && BranchOk(m, items, utf8) && Meaning(m, items) == ParseItem(s, items, utf8).v
    ensures IsNode(s, NodeOf(m), ParseItem(s, items, utf8).rest)
    decreases |s|, 1
  {
    var id := ReadU16(s);
    var amount := ParseAttrs(id.rest, 1, utf8);
    var content := ParseChildren(amount.rest, [], items, utf8);
    var attrs := AttrsWereWritten(id.rest, 1, utf8);
    U16WasWritten(s, AttrsBytes(attrs), amount.rest);
    var bs := ChildrenWereWritten(amount.rest, [], items, utf8);
    EndWasWritten(content.rest);
    assert [] + Contents(bs, items) == Contents(bs, items);
    m := MapItem(id.v, attrs, bs);
    assert IsData(s, NodeOf(m).data, amount.rest);
  }

  lemma {:induction false} ChildrenWereWritten(s: Bytes, found: seq<LoadedItem>, items: Catalogue, utf8: Bytes -> bool)
    returns (bs: seq<Branch>)
    requires ParseChildren(s, found, items, utf8).Value?
    ensures AllOk(bs, items, utf8) && ParseChildren(s, found, items, utf8).v == found + Contents(bs, items)
    ensures IsNodes(s, NodesOf(bs), ParseChildren(s, found, items, utf8).rest)
    ensures !AtStart(ParseChildren(s, found, items, utf8).rest)
    decreases |s|, 0
  {
    if !AtStart(s) {
      bs := [];
      assert found + [] == found;
    } else {
      FirstChildParses(s, found, items, utf8);
      var b, mid := ChildWasWritten(s, items, utf8);
      FirstChildIsTaken(s, found, b, mid, items, utf8);
      var tail := ChildrenWereWritten(mid, found + ItemOf(b, items), items, utf8);
      bs := [b] + tail;
      OneMoreChild(s, b, tail, mid, ParseChildren(s, found, items, utf8).rest, items);
      Regroup(found, ItemOf(b, items), Contents(tail, items));
    }
  }

  lemma FirstChildParses(s: Bytes, found: seq<LoadedItem>, items: Catalogue, utf8: Bytes -> bool)
    requires AtStart(s) && ParseChildren(s, found, items, utf8).Value?
    ensures |s| >= 2 && if s[1] == ITEM then ParseItem(s[2..], items, utf8).Value? else SkipNode(s[2..]).Value?
  {
    if |s| >= 2 { assert s[1..][1..] == s[2..]; }
  }

  lemma OneMoreChild(s: Bytes, b: Branch, tail: seq<Branch>, mid: Bytes, rest: Bytes, items: Catalogue)
    requires AtStart(s) && |s| >= 2 && NodeOf(b).kind == s[1]
    requires IsNode(s[2..], NodeOf(b), mid) && IsNodes(mid, NodesOf(tail), rest)
    ensures var bs := [b] + tail;
            && bs[1..] == tail && IsNodes(s, NodesOf(bs), rest)
            && Contents(bs, items) == ItemOf(b, items) + Contents(tail, items)
  {
    var bs := [b] + tail;
    assert bs[1..] == tail && NodesOf(bs)[0] == NodeOf(b) && NodesOf(bs)[1..] == NodesOf(tail);
  }

  // The first child: an item, or a node that is skipped.
  lemma {:induction false} ChildWasWritten(s: Bytes, items: Catalogue, utf8: Bytes -> bool)
    returns (b: Branch, mid: Bytes)
    requires AtStart(s) && |s| >= 2
    requires if s[1] == ITEM then ParseItem(s[2..], items, utf8).Value? else SkipNode(s[2..]).Value?
    ensures BranchOk(b, items, utf8) && NodeOf(b).kind == s[1] && IsNode(s[2..], NodeOf(b), mid)
    ensures if s[1] == ITEM then b.MapItem? && ParseItem(s[2..], items, utf8) == Value(Meaning(b, items), mid)
            else b.Foreign? && SkipNode(s[2..]) == Value((), mid)
    decreases |s| - 2, 2
  {
    if s[1] == ITEM {
      b := ItemWasWritten(s[2..], items, utf8);
      mid := ParseItem(s[2..], items, utf8).rest;
    } else {
      var n := SkippedWasANode(s[2..], s[1]);
      b := Foreign(n);
      mid := SkipNode(s[2..]).rest;
    }
  }

  // ---------------------------------------------------------------- the grammar of items

  // Parsing gives an item and stops at `rest` if and only if the bytes before `rest` encode an
  // item tree over known ids - with whatever escapes and attributes - that means that item.
  lemma ItemsAreWhatIsEncoded(s: Bytes, it: LoadedItem, rest: Bytes, items: Catalogue, utf8: Bytes -> bool)
    ensures ParseItem(s, items, utf8) == Value(it, rest) <==>
              exists m: Branch :: m.MapItem? && BranchOk(m, items, utf8) && IsNode(s, NodeOf(m), rest)
                                  && Meaning(m, items) == it
  {
    if ParseItem(s, items, utf8) == Value(it, rest) { var _ := ItemWasWritten(s, items, utf8); }
    if m: Branch :| m.MapItem? && BranchOk(m, items, utf8) && IsNode(s, NodeOf(m), rest) && Meaning(m, items) == it {
      ItemIsRead(s, m, rest, items, utf8);
    }
  }

  // So parsing undoes printing.
  lemma ParseUndoesPrint(m: Branch, rest: Bytes, items: Catalogue, utf8: Bytes -> bool)
    requires m.MapItem? && BranchOk(m, items, utf8)
    ensures ParseItem(PutNode(NodeOf(m), rest), items, utf8) == Value(Meaning(m, items), rest)
  {
    PutNodeIsNode(NodeOf(m), rest);
    ItemIsRead(PutNode(NodeOf(m), rest), m, rest, items, utf8);
  }

  // ---------------------------------------------------------------- tiles

  datatype TileAttr = FlagsAttr(flags: U32) | GroundAttr(id: U16)

  // A tile as a map editor writes it; `house` is the house id of a house tile.
  datatype MapTile = MapTile(dx: U8, dy: U8, house: Option<U32>, attrs: seq<TileAttr>, children: seq<Branch>)

  function TileKind(t: MapTile): U8 { if t.house.Some? then 0x0A else 0x05 }

  function TileAttrsBytes(attrs: seq<TileAttr>): Bytes {
    if attrs == [] then []
    else TileAttrBytes(attrs[0]) + TileAttrsBytes(attrs[1..])
  }

  function TileAttrBytes(a: TileAttr): Bytes {
    match a
    case FlagsAttr(flags) => [0x03] + Le32(flags)
    case GroundAttr(id) => [0x09] + Le16(id)
  }

  function HouseBytes(t: MapTile): Bytes { if t.house.Some? then Le32(t.house.value) else [] }

  function TileNode(t: MapTile): Node {
    Node(TileKind(t), [t.dx] + ([t.dy] + (HouseBytes(t) + TileAttrsBytes(t.attrs))), NodesOf(t.children))
  }

  function GroundItem(id: U16, items: Catalogue): LoadedItem {
    LoadedItem(id, 1, if id in items && items[id] then Some([]) else None)
  }

  function GroundItems(attrs: seq<TileAttr>, items: Catalogue): seq<LoadedItem> {
    if attrs == [] then []
    else if attrs[0].GroundAttr? then [GroundItem(attrs[0].id, items)] + GroundItems(attrs[1..], items)
    else GroundItems(attrs[1..], items)
  }

  ghost predicate AllGroundKnown(attrs: seq<TileAttr>, items: Catalogue) {
    forall i :: 0 <= i < |attrs| && attrs[i].GroundAttr? ==> attrs[i].id in items
  }

  predicate InTheMap(t: MapTile, base: Position) {
    base.x + (t.dx as int) <= U16_MAX && base.y + (t.dy as int) <= U16_MAX
  }

  ghost predicate TileOk(t: MapTile, base: Position, items: Catalogue, utf8: Bytes -> bool) {
    && InTheMap(t, base)
    && AllGroundKnown(t.attrs, items) && AllOk(t.children, items, utf8)
  }

  ghost function TilePosition(t: MapTile, base: Position): Position
    requires InTheMap(t, base)
  {
    Position(base.x + t.dx, base.y + t.dy, base.z)
  }

  // Where the tile lies, its ground items, and the items stacked on it.
  ghost function TileMeaning(t: MapTile, base: Position, items: Catalogue): LoadedTile
    requires InTheMap(t, base)
  {
    LoadedTile(TilePosition(t, base), GroundItems(t.attrs, items) + Contents(t.children, items))
  }

  lemma OffsetIsRead(s: Bytes, t: MapTile, base: Position, d: Bytes, rest: Bytes) returns (mid: Bytes)
    requires InTheMap(t, base) && IsData(s, [t.dx] + ([t.dy] + d), rest)
    ensures ParseOffset(s, base) == Value(TilePosition(t, base), mid) && IsData(mid, d, rest)
  {
    var s1 := U8IsRead(s, t.dx, [t.dy] + d, rest);
    mid := U8IsRead(s1, t.dy, d, rest);
  }

  lemma HouseIsRead(s: Bytes, t: MapTile, d: Bytes, rest: Bytes) returns (mid: Bytes)
    requires IsData(s, HouseBytes(t) + d, rest)
    ensures ParseHouse(s, TileKind(t)) == Value((), mid) && IsData(mid, d, rest)
  {
    if t.house.Some? {
      mid := FourBytesAreRead(s, Le32(t.house.value), d, rest);
    } else {
      assert [] + d == d;
      mid := s;
    }
  }

  lemma {:induction false} TileAttrsAreRead(s: Bytes, attrs: seq<TileAttr>, found: seq<LoadedItem>, rest: Bytes,
                                            items: Catalogue)
    requires AtBoundary(rest) && AllGroundKnown(attrs, items) && IsData(s, TileAttrsBytes(attrs), rest)
    ensures ParseTileAttrs(s, found, items) == Value(found + GroundItems(attrs, items), rest)
    decreases attrs
  {
    if attrs == [] {
      assert found + [] == found;
    } else {
      match attrs[0] {
        case FlagsAttr(flags) =>
          var s1 := FlagsAreRead(s, flags, found, TileAttrsBytes(attrs[1..]), rest, items);
          TileAttrsAreRead(s1, attrs[1..], found, rest, items);
        case GroundAttr(id) =>
          var s1 := GroundIsRead(s, id, found, TileAttrsBytes(attrs[1..]), rest, items);
          TileAttrsAreRead(s1, attrs[1..], found + [GroundItem(id, items)], rest, items);
          Regroup(found, [GroundItem(id, items)], GroundItems(attrs[1..], items));
      }
    }
  }

  lemma FlagsAreRead(s: Bytes, flags: U32, found: seq<LoadedItem>, d: Bytes, rest: Bytes, items: Catalogue)
    returns (mid: Bytes)
    requires IsData(s, [0x03] + Le32(flags) + d, rest)
    ensures ParseTileAttrs(s, found, items) == ParseTileAttrs(mid, found, items) && IsData(mid, d, rest)
  {
    Assoc([0x03], Le32(flags), d);
    var s1 := ByteIsRead(s, [0x03] + (Le32(flags) + d), rest);
    assert ([0x03] + (Le32(flags) + d))[1..] == Le32(flags) + d;
    mid := FourBytesAreRead(s1, Le32(flags), d, rest);
  }

  lemma GroundIsRead(s: Bytes, id: U16, found: seq<LoadedItem>, d: Bytes, rest: Bytes, items: Catalogue)
    returns (mid: Bytes)
    requires id in items && IsData(s, [0x09] + Le16(id) + d, rest)
    ensures ParseTileAttrs(s, found, items) == ParseTileAttrs(mid, found + [GroundItem(id, items)], items)
    ensures IsData(mid, d, rest)
  {
    Assoc([0x09], Le16(id), d);
    var s1 := ByteIsRead(s, [0x09] + (Le16(id) + d), rest);
    assert ([0x09] + (Le16(id) + d))[1..] == Le16(id) + d;
    mid := U16IsRead(s1, id, d, rest);
  }

  lemma TileDataIsRead(s: Bytes, t: MapTile, base: Position, rest: Bytes, items: Catalogue)
    requires InTheMap(t, base) && AllGroundKnown(t.attrs, items)
    requires IsData(s, TileNode(t).data, rest) && AtBoundary(rest)
    ensures ParseTileData(s, base, TileKind(t), items)
            == Value(LoadedTile(TilePosition(t, base), GroundItems(t.attrs, items)), rest)
  {
    var s1 := OffsetIsRead(s, t, base, HouseBytes(t) + TileAttrsBytes(t.attrs), rest);
    var s2 := HouseIsRead(s1, t, TileAttrsBytes(t.attrs), rest);
    TileAttrsAreRead(s2, t.attrs, [], rest, items);
    assert [] + GroundItems(t.attrs, items) == GroundItems(t.attrs, items);
  }

  lemma TileIsRead(s: Bytes, t: MapTile, base: Position, rest: Bytes, items: Catalogue, utf8: Bytes -> bool)
    requires TileOk(t, base, items, utf8) && IsNode(s, TileNode(t), rest)
    ensures ParseTile(s, base, TileKind(t), items, utf8) == Value(TileMeaning(t, base, items), rest)
  {
    var mid := NodeParts(s, TileNode(t), rest);
    TileDataIsRead(s, t, base, mid, items);
    TileChildrenAreRead(mid, t, GroundItems(t.attrs, items), rest, items, utf8);
    TileEnds(TilePosition(t, base), GroundItems(t.attrs, items), mid,
             GroundItems(t.attrs, items) + Contents(t.children, items), rest, items, utf8);
  }

  lemma TileEnds(at: Position, ground: seq<LoadedItem>, mid: Bytes, all: seq<LoadedItem>, rest: Bytes,
                 items: Catalogue, utf8: Bytes -> bool)
    requires ParseChildren(mid, ground, items, utf8) == Value(all, [0xFF] + rest)
    ensures TileWithChildren(Value(LoadedTile(at, ground), mid), items, utf8) == Value(LoadedTile(at, all), rest)
  {
    EndIsRead(rest);
  }

  lemma TileChildrenAreRead(mid: Bytes, t: MapTile, ground: seq<LoadedItem>, rest: Bytes, items: Catalogue,
                            utf8: Bytes -> bool)
    requires AllOk(t.children, items, utf8) && IsNodes(mid, TileNode(t).children, [0xFF] + rest)
    ensures ParseChildren(mid, ground, items, utf8) == Value(ground + Contents(t.children, items), [0xFF] + rest)
  {
    EndIsRead(rest);
    ChildrenAreRead(mid, t.children, ground, [0xFF] + rest, items, utf8);
  }

  lemma TileAttrWasWritten(s: Bytes, a: TileAttr, tail: seq<TileAttr>, rest: Bytes)
    requires DataByte(s).Value? && DataByte(s).v == Some(TileAttrBytes(a)[0])
    requires IsData(DataByte(s).rest, TileAttrBytes(a)[1..] + TileAttrsBytes(tail), rest)
    ensures IsData(s, TileAttrsBytes([a] + tail), rest)
  {
    TaggedWasWritten(s, TileAttrBytes(a), TileAttrsBytes(tail), rest);
    assert ([a] + tail)[1..] == tail;
  }

  lemma TaggedWasWritten(s: Bytes, b: Bytes, d: Bytes, rest: Bytes)
    requires b != [] && DataByte(s).Value? && DataByte(s).v == Some(b[0])
    requires IsData(DataByte(s).rest, b[1..] + d, rest)
    ensures IsData(s, b + d, rest)
  {
    ByteWasWritten(s, b[1..] + d, rest);
    assert b + d == [b[0]] + (b[1..] + d);
  }

  lemma {:induction false} TileAttrsWereWritten(s: Bytes, found: seq<LoadedItem>, items: Catalogue)
    returns (attrs: seq<TileAttr>)
    requires ParseTileAttrs(s, found, items).Value?
    ensures AllGroundKnown(attrs, items) && ParseTileAttrs(s, found, items).v == found + GroundItems(attrs, items)
    ensures IsData(s, TileAttrsBytes(attrs), ParseTileAttrs(s, found, items).rest)
    ensures AtBoundary(ParseTileAttrs(s, found, items).rest)
    decreases |s|, 1
  {
    var tag := DataByte(s);
    if tag.v.None? {
      attrs := [];
      assert found + [] == found;
    } else if tag.v.value == ATTR_TILE_FLAGS {
      attrs := FlagsWereWritten(s, found, items);
    } else {
      attrs := GroundWasWritten(s, found, items);
    }
  }

  lemma {:induction false} FlagsWereWritten(s: Bytes, found: seq<LoadedItem>, items: Catalogue)
    returns (attrs: seq<TileAttr>)
    requires ParseTileAttrs(s, found, items).Value? && DataByte(s).v == Some(ATTR_TILE_FLAGS)
    ensures AllGroundKnown(attrs, items) && ParseTileAttrs(s, found, items).v == found + GroundItems(attrs, items)
    ensures IsData(s, TileAttrsBytes(attrs), ParseTileAttrs(s, found, items).rest)
    ensures AtBoundary(ParseTileAttrs(s, found, items).rest)
    decreases |s|, 0
  {
    var flags := ReadU32(DataByte(s).rest);
    var rest := ParseTileAttrs(s, found, items).rest;
    var tail := TileAttrsWereWritten(flags.rest, found, items);
    U32WasWritten(DataByte(s).rest, TileAttrsBytes(tail), rest);
    TileAttrWasWritten(s, FlagsAttr(flags.v), tail, rest);
    attrs := [FlagsAttr(flags.v)] + tail;
    assert attrs[1..] == tail;
  }

  lemma GroundIsTaken(s: Bytes, found: seq<LoadedItem>, items: Catalogue)
    requires ParseTileAttrs(s, found, items).Value? && DataByte(s).v == Some(ATTR_ITEM)
    ensures var id := ReadU16(DataByte(s).rest);
            && id.Value? && id.v in items
            && ParseTileAttrs(s, found, items) == ParseTileAttrs(id.rest, found + [GroundItem(id.v, items)], items)
  {
  }

  lemma {:induction false} GroundWasWritten(s: Bytes, found: seq<LoadedItem>, items: Catalogue)
    returns (attrs: seq<TileAttr>)
    requires ParseTileAttrs(s, found, items).Value? && DataByte(s).v == Some(ATTR_ITEM)
    ensures AllGroundKnown(attrs, items) && ParseTileAttrs(s, found, items).v == found + GroundItems(attrs, items)
    ensures IsData(s, TileAttrsBytes(attrs), ParseTileAttrs(s, found, items).rest)
    ensures AtBoundary(ParseTileAttrs(s, found, items).rest)
    decreases |s|, 0
  {
    var id := ReadU16(DataByte(s).rest);
    var rest := ParseTileAttrs(s, found, items).rest;
    var item := GroundItem(id.v, items);
    GroundIsTaken(s, found, items);
    var tail := TileAttrsWereWritten(id.rest, found + [item], items);
    U16WasWritten(DataByte(s).rest, TileAttrsBytes(tail), rest);
    TileAttrWasWritten(s, GroundAttr(id.v), tail, rest);
    attrs := [GroundAttr(id.v)] + tail;
    assert attrs[1..] == tail;
    Regroup(found, [item], GroundItems(tail, items));
  }

  lemma TileDataWasWritten(s: Bytes, base: Position, kind: U8, items: Catalogue, children: seq<Branch>)
    returns (t: MapTile)
    requires kind in {0x05, 0x0A} && ParseTileData(s, base, kind, items).Value?
    ensures TileKind(t) == kind && t.children == children && AllGroundKnown(t.attrs, items)
    ensures InTheMap(t, base)
    ensures ParseTileData(s, base, kind, items).v == LoadedTile(TilePosition(t, base), GroundItems(t.attrs, items))
    ensures IsData(s, TileNode(t).data, ParseTileData(s, base, kind, items).rest)
  {
    var offset := ParseOffset(s, base);
    var house := ParseHouse(offset.rest, kind);
    var rest := ParseTileAttrs(house.rest, [], items).rest;
    var attrs := TileAttrsWereWritten(house.rest, [], items);
    assert [] + GroundItems(attrs, items) == GroundItems(attrs, items);
    var h := HouseWasWritten(offset.rest, kind, TileAttrsBytes(attrs), rest);
    t := OffsetWasWritten(s, base, MapTile(0, 0, h, attrs, children), rest);
  }

  lemma HouseWasWritten(s: Bytes, kind: U8, d: Bytes, rest: Bytes) returns (house: Option<U32>)
    requires ParseHouse(s, kind).Value? && IsData(ParseHouse(s, kind).rest, d, rest)
    ensures house.Some? <==> kind == 0x0A
    ensures IsData(s, (if house.Some? then Le32(house.value) else []) + d, rest)
  {
    if kind == 0x0A {
      U32WasWritten(s, d, rest);
      house := Some(ReadU32(s).v);
    } else {
      assert [] + d == d;
      house := None;
    }
  }

  lemma OffsetWasWritten(s: Bytes, base: Position, t: MapTile, rest: Bytes) returns (t': MapTile)
    requires ParseOffset(s, base).Value?
    requires IsData(ParseOffset(s, base).rest, HouseBytes(t) + TileAttrsBytes(t.attrs), rest)
    ensures t' == t.(dx := t'.dx, dy := t'.dy) && IsData(s, TileNode(t').data, rest)
    ensures InTheMap(t', base) && ParseOffset(s, base).v == TilePosition(t', base)
  {
    var dx := ReadU8(s);
    var dy := ReadU8(dx.rest);
    var d := HouseBytes(t) + TileAttrsBytes(t.attrs);
    U8WasWritten(dx.rest, d, rest);
    U8WasWritten(s, [dy.v] + d, rest);
    t' := t.(dx := dx.v, dy := dy.v);
  }

  lemma TileWasWritten(s: Bytes, base: Position, kind: U8, items: Catalogue, utf8: Bytes -> bool) returns (t: MapTile)
    requires kind in {0x05, 0x0A} && ParseTile(s, base, kind, items, utf8).Value?
    ensures TileKind(t) == kind && TileOk(t, base, items, utf8)
    ensures TileMeaning(t, base, items) == ParseTile(s, base, kind, items, utf8).v
    ensures IsNode(s, TileNode(t), ParseTile(s, base, kind, items, utf8).rest)
  {
    var data := ParseTileData(s, base, kind, items);
    var bs := ChildrenWereWritten(data.rest, data.v.items, items, utf8);
    EndWasWritten(ParseChildren(data.rest, data.v.items, items, utf8).rest);
    t := TileDataWasWritten(s, base, kind, items, bs);
  }

  // The same for tiles and house tiles: position, ground items, and the items stacked on it.
  lemma TilesAreWhatIsEncoded(s: Bytes, base: Position, kind: U8, tile: LoadedTile, rest: Bytes, items: Catalogue,
                              utf8: Bytes -> bool)
    requires kind in {0x05, 0x0A}
    ensures ParseTile(s, base, kind, items, utf8) == Value(tile, rest) <==>
              exists t: MapTile :: TileKind(t) == kind && TileOk(t, base, items, utf8) && IsNode(s, TileNode(t), rest)
                                   && TileMeaning(t, base, items) == tile
  {
    if ParseTile(s, base, kind, items, utf8) == Value(tile, rest) {
      var _ := TileWasWritten(s, base, kind, items, utf8);
    }
    if t: MapTile :| TileKind(t) == kind && TileOk(t, base, items, utf8) && IsNode(s, TileNode(t), rest)
                     && TileMeaning(t, base, items) == tile {
      TileIsRead(s, t, base, rest, items, utf8);
    }
  }

  lemma ParseTileUndoesPrint(t: MapTile, base: Position, rest: Bytes, items: Catalogue, utf8: Bytes -> bool)
    requires TileOk(t, base, items, utf8)
    ensures ParseTile(PutNode(TileNode(t), rest), base, TileKind(t), items, utf8)
            == Value(TileMeaning(t, base, items), rest)
  {
    PutNodeIsNode(TileNode(t), rest);
    TileIsRead(PutNode(TileNode(t), rest), t, base, rest, items, utf8);
  }
}
