/** The client half of the wire protocol: length-prefixed frames decoded from a growing buffer. */
module Codec {
  import opened Wrappers
  import opened Words
  import P = Positions

  datatype ClientItemRef = ClientItemRef(position: P.Position, itemId: U16, stackIndex: U8)

  datatype Facing = North | East | South | West

  datatype SayTarget = Local | Channel(channel: U16) | Player(name: Bytes)

  datatype SpellTarget = NoTarget | AtAgent(agent: U16) | AtPosition(position: P.Position)

  datatype ClientMessage =
    | Ping
    | Login(authToken: Bytes)
    | MovePlayer(direction: P.Direction)
    | GetPlayerPosition
    | MoveItem(item: ClientItemRef, amount: U8, to: P.Position)
    | UseItem(item: ClientItemRef)
    | CloseContainer(container: U16)
    | OpenParentContainer(container: U16)
    | ChangeDirection(facing: Facing)
    | Logout
    | UseItemWith(source: ClientItemRef, target: ClientItemRef, targetAgent: Option<U16>)
    | Look(position: P.Position)
    | Say(message: Bytes, sayTarget: SayTarget)
    | RequestChannels
    | OpenChannel(channel: U16)
    | CloseChannel(channel: U16)
    | OpenPmChat(name: Bytes)
    | SetTarget(agent: Option<U16>, seqNo: U32)
    | CastSpell(spell: U16, spellTarget: SpellTarget)

  // `Overrun` is a read past the end of the buffer, on which the buffer type panics.
  datatype DecodeError = WrongSequence | Overrun

  // ---------------------------------------------------------------- fields

  function TakeU8(s: Bytes): Read<U8, DecodeError> {
    if |s| < 1 then Fail(Overrun) else Value(s[0], s[1..])
  }

  function TakeU16(s: Bytes): Read<U16, DecodeError> {
    if |s| < 2 then Fail(Overrun) else Value(FromLe16(s[0], s[1]), s[2..])
  }

  function TakeU32(s: Bytes): Read<U32, DecodeError> {
    if |s| < 4 then Fail(Overrun)
    else Value(FromLe32(FromLe16(s[0], s[1]), FromLe16(s[2], s[3])), s[4..])
  }

  function TakeBytes(s: Bytes, n: nat): Read<Bytes, DecodeError> {
    if |s| < n then Fail(Overrun) else Value(s[..n], s[n..])
  }

  // Text must be UTF-8; which byte sequences are is left to `utf8`.
  function TakeText(s: Bytes, n: nat, utf8: Bytes -> bool): Read<Bytes, DecodeError> {
    var (text, rest) :- TakeBytes(s, n);
    if utf8(text) then Value(text, rest) else Fail(WrongSequence)
  }

  function PositionAt(s: Bytes): P.Position
    requires |s| >= 5
  {
    P.Position(FromLe16(s[0], s[1]), FromLe16(s[2], s[3]), s[4])
  }

  // Five bytes, then eight: reading the fields one by one fails in the same cases.
  function TakePosition(s: Bytes): Read<P.Position, DecodeError> {
    if |s| < 5 then Fail(Overrun) else Value(PositionAt(s), s[5..])
  }

  function TakeItemRef(s: Bytes): Read<ClientItemRef, DecodeError> {
    if |s| < 8 then Fail(Overrun)
    else Value(ClientItemRef(PositionAt(s), FromLe16(s[5], s[6]), s[7]), s[8..])
  }

  function OptionalAgent(raw: U16): Option<U16> { if raw == 0xFFFF then None else Some(raw) }

  function DirectionOf(b: U8): Option<P.Direction> {
    match b
    case 0 => Some(P.North)
    case 1 => Some(P.East)
    case 2 => Some(P.West)
    case 3 => Some(P.South)
    case 4 => Some(P.NorthEast)
    case 5 => Some(P.NorthWest)
    case 6 => Some(P.SouthEast)
    case 7 => Some(P.SouthWest)
    case _ => None
  }

  function FacingOf(b: U8): Option<Facing> {
    match b
    case 1 => Some(North)
    case 2 => Some(East)
    case 3 => Some(South)
    case 4 => Some(West)
    case _ => None
  }

  // ---------------------------------------------------------------- messages

  function TakeSay(s: Bytes, payload: nat, utf8: Bytes -> bool): Read<ClientMessage, DecodeError> {
    if payload < 2 then Fail(WrongSequence) else
    var (kind, s) :- TakeU8(s);
    match kind
    case 1 =>
      var (message, s) :- TakeText(s, payload - 2, utf8);
      Value(Say(message, Local), s)
    case 2 =>
      if payload - 2 < 2 then Fail(WrongSequence) else
      var (n, s) :- TakeU16(s);
      if n > payload - 4 then Fail(WrongSequence) else
      var (name, s) :- TakeText(s, n, utf8);
      var (message, s) :- TakeText(s, payload - 4 - n, utf8);
      Value(Say(message, Player(name)), s)
    case 3 =>
      if payload - 2 < 2 then Fail(WrongSequence) else
      var (channel, s) :- TakeU16(s);
      var (message, s) :- TakeText(s, payload - 4, utf8);
      Value(Say(message, Channel(channel)), s)
    case _ => Fail(WrongSequence)
  }

  function TakeSpellTarget(s: Bytes): Read<SpellTarget, DecodeError> {
    var (kind, s) :- TakeU8(s);
    match kind
    case 0 => Value(NoTarget, s)
    case 1 =>
      var (agent, s) :- TakeU16(s);
      Value(AtAgent(agent), s)
    case 2 =>
      var (position, s) :- TakePosition(s);
      Value(AtPosition(position), s)
    case _ => Fail(WrongSequence)
  }

  function TakeMoveItem(s: Bytes): Read<ClientMessage, DecodeError> {
    var (from, s) :- TakePosition(s);
    var (itemId, s) :- TakeU16(s);
    var (amount, s) :- TakeU8(s);
    var (stackIndex, s) :- TakeU8(s);
    var (to, s) :- TakePosition(s);
    Value(MoveItem(ClientItemRef(from, itemId, stackIndex), amount, to), s)
  }

  function TakeUseItemWith(s: Bytes): Read<ClientMessage, DecodeError> {
    var (source, s) :- TakeItemRef(s);
    var (target, s) :- TakeItemRef(s);
    var (agent, s) :- TakeU16(s);
    Value(UseItemWith(source, target, OptionalAgent(agent)), s)
  }

  function TakeSetTarget(s: Bytes): Read<ClientMessage, DecodeError> {
    var (agent, s) :- TakeU16(s);
    var (seqNo, s) :- TakeU32(s);
    Value(SetTarget(OptionalAgent(agent), seqNo), s)
  }

  function TakeCastSpell(s: Bytes): Read<ClientMessage, DecodeError> {
    var (spell, s) :- TakeU16(s);
    var (target, s) :- TakeSpellTarget(s);
    Value(CastSpell(spell, target), s)
  }

  // A message whose only field is one 16-bit id.
  function TakeIdMessage(tag: U8, s: Bytes): Read<ClientMessage, DecodeError>
    requires tag in {6, 7, 14, 15}
  {
    var (id, s) :- TakeU16(s);
    match tag
    case 6 => Value(CloseContainer(id), s)
    case 7 => Value(OpenParentContainer(id), s)
    case 14 => Value(OpenChannel(id), s)
    case _ => Value(CloseChannel(id), s)
  }

  // A message that is one text as long as the rest of its frame.
  function TakeTextMessage(tag: U8, s: Bytes, payload: nat, utf8: Bytes -> bool): Read<ClientMessage, DecodeError>
    requires payload >= 1
  {
    var (text, s) :- TakeText(s, payload - 1, utf8);
    Value(if tag == 1 then Login(text) else OpenPmChat(text), s)
  }

  function TakeMovePlayer(s: Bytes): Read<ClientMessage, DecodeError> {
    var (b, s) :- TakeU8(s);
    if DirectionOf(b).None? then Fail(WrongSequence) else Value(MovePlayer(DirectionOf(b).value), s)
  }

  function TakeChangeDirection(s: Bytes): Read<ClientMessage, DecodeError> {
    var (b, s) :- TakeU8(s);
    if FacingOf(b).None? then Fail(WrongSequence) else Value(ChangeDirection(FacingOf(b).value), s)
  }

  function TakeUseItem(s: Bytes): Read<ClientMessage, DecodeError> {
    var (item, s) :- TakeItemRef(s);
    Value(UseItem(item), s)
  }

  function TakeLook(s: Bytes): Read<ClientMessage, DecodeError> {
    var (position, s) :- TakePosition(s);
    Value(Look(position), s)
  }

  function TakeBody(tag: U8, s: Bytes, payload: nat, utf8: Bytes -> bool): Read<ClientMessage, DecodeError>
    requires payload >= 1
  {
    match tag
    case 0 => Value(Ping, s)
    case 1 => TakeTextMessage(tag, s, payload, utf8)
    case 2 => TakeMovePlayer(s)
    case 3 => Value(GetPlayerPosition, s)
    case 4 => TakeMoveItem(s)
    case 5 => TakeUseItem(s)
    case 6 => TakeIdMessage(tag, s)
    case 7 => TakeIdMessage(tag, s)
    case 8 => TakeChangeDirection(s)
    case 9 => Value(Logout, s)
    case 10 => TakeUseItemWith(s)
    case 11 => TakeLook(s)
    case 12 => TakeSay(s, payload, utf8)
    case 13 => Value(RequestChannels, s)
    case 14 => TakeIdMessage(tag, s)
    case 15 => TakeIdMessage(tag, s)
    case 16 => TakeTextMessage(tag, s, payload, utf8)
    case 17 => TakeSetTarget(s)
    case 18 => TakeCastSpell(s)
    case _ => Fail(WrongSequence)
  }

  // The message of a frame whose payload, type byte included, is `payload` bytes long. Only
  // the text fields look at that length; the others read what they need from the buffer.
  function TakeMessage(s: Bytes, payload: nat, utf8: Bytes -> bool): Read<ClientMessage, DecodeError>
    requires payload >= 1
  {
    var (tag, s) :- TakeU8(s);
    TakeBody(tag, s, payload, utf8)
  }

  predicate Incomplete(s: Bytes) {
    |s| < 2 || |s| < 2 + FromLe16(s[0], s[1])
  }

  function TakeFrame(s: Bytes, utf8: Bytes -> bool): Read<ClientMessage, DecodeError>
    requires !Incomplete(s)
  {
    var payload := FromLe16(s[0], s[1]);
    if payload == 0 then Fail(WrongSequence) else TakeMessage(s[2..], payload, utf8)
  }

  // ---------------------------------------------------------------- the client's printer

  function PositionBytes(p: P.Position): (r: Bytes)
    ensures |r| == 5 && PositionAt(r) == p
  {
    Le16(p.x) + Le16(p.y) + [p.z]
  }

  function ItemRefBytes(item: ClientItemRef): (r: Bytes)
    ensures |r| == 8
  {
    PositionBytes(item.position) + Le16(item.itemId) + [item.stackIndex]
  }

  function AgentBytes(agent: Option<U16>): (r: Bytes)
    ensures |r| == 2
  {
    Le16(if agent.Some? then agent.value else 0xFFFF)
  }

  function ByteOfDirection(d: P.Direction): U8 {
    match d
    case North => 0
    case East => 1
    case West => 2
    case South => 3
    case NorthEast => 4
    case NorthWest => 5
    case SouthEast => 6
    case SouthWest => 7
  }

  function ByteOfFacing(f: Facing): U8 {
    match f
    case North => 1
    case East => 2
    case South => 3
    case West => 4
  }

  function SpellTargetBytes(t: SpellTarget): Bytes {
    match t
    case NoTarget => [0]
    case AtAgent(agent) => [1] + Le16(agent)
    case AtPosition(position) => [2] + PositionBytes(position)
  }

  function SayBytes(message: Bytes, to: SayTarget): Bytes {
    match to
    case Local => [1] + message
    case Player(name) => [2] + (Le16(Min(|name|, U16_MAX)) + (name + message))
    case Channel(channel) => [3] + (Le16(channel) + message)
  }

  function TagOf(m: ClientMessage): U8 {
    match m
    case Ping => 0
    case Login(_) => 1
    case MovePlayer(_) => 2
    case GetPlayerPosition => 3
    case MoveItem(_, _, _) => 4
    case UseItem(_) => 5
    case CloseContainer(_) => 6
    case OpenParentContainer(_) => 7
    case ChangeDirection(_) => 8
    case Logout => 9
    case UseItemWith(_, _, _) => 10
    case Look(_) => 11
    case Say(_, _) => 12
    case RequestChannels => 13
    case OpenChannel(_) => 14
    case CloseChannel(_) => 15
    case OpenPmChat(_) => 16
    case SetTarget(_, _) => 17
    case CastSpell(_, _) => 18
  }

  function MoveItemBytes(item: ClientItemRef, amount: U8, to: P.Position): Bytes {
    PositionBytes(item.position) + (Le16(item.itemId) + ([amount, item.stackIndex] + PositionBytes(to)))
  }

  function BodyOf(m: ClientMessage): Bytes {
    match m
    case Login(token) => token
    case MovePlayer(direction) => [ByteOfDirection(direction)]
    case MoveItem(item, amount, to) => MoveItemBytes(item, amount, to)
    case UseItem(item) => ItemRefBytes(item)
    case CloseContainer(container) => Le16(container)
    case OpenParentContainer(container) => Le16(container)
    case ChangeDirection(facing) => [ByteOfFacing(facing)]
    case UseItemWith(source, target, agent) => ItemRefBytes(source) + (ItemRefBytes(target) + AgentBytes(agent))
    case Look(position) => PositionBytes(position)
    case Say(message, to) => SayBytes(message, to)
    case OpenChannel(channel) => Le16(channel)
    case CloseChannel(channel) => Le16(channel)
    case OpenPmChat(name) => name
    case SetTarget(agent, seqNo) => AgentBytes(agent) + Le32(seqNo)
    case CastSpell(spell, target) => Le16(spell) + SpellTargetBytes(target)
    case _ => []
  }

  function PayloadOf(m: ClientMessage): (r: Bytes)
    ensures |r| >= 1
  {
    [TagOf(m)] + BodyOf(m)
  }

  function Framed(payload: Bytes): Bytes { Le16(Min(|payload|, U16_MAX)) + payload }

  function FrameOf(m: ClientMessage): Bytes { Framed(PayloadOf(m)) }

  predicate Texts(m: ClientMessage, utf8: Bytes -> bool) {
    match m
    case Login(token) => utf8(token)
    case OpenPmChat(name) => utf8(name)
    case Say(message, Player(name)) => utf8(message) && utf8(name)
    case Say(message, _) => utf8(message)
    case _ => true
  }

  // 0xFFFF is the wire's absent agent.
  predicate NamesAgents(m: ClientMessage) {
    (m.SetTarget? ==> m.agent != Some(0xFFFF)) && (m.UseItemWith? ==> m.targetAgent != Some(0xFFFF))
  }

  // These carry a text that is as long as the rest of the frame.
  predicate SizedByItsFrame(m: ClientMessage) { m.Login? || m.Say? || m.OpenPmChat? }

  // A frame's length has sixteen bits.
  predicate WellFormed(m: ClientMessage, utf8: Bytes -> bool) {
    Texts(m, utf8) && NamesAgents(m) && |PayloadOf(m)| <= U16_MAX
  }

  // ---------------------------------------------------------------- printing then reading

  lemma U8Reads(n: U8, rest: Bytes)
    ensures TakeU8([n] + rest) == Value(n, rest)
  {
  }

  lemma U16Reads(n: U16, rest: Bytes)
    ensures TakeU16(Le16(n) + rest) == Value(n, rest)
  {
  }

  lemma U32Reads(n: U32, rest: Bytes)
    ensures TakeU32(Le32(n) + rest) == Value(n, rest)
  {
    var s := Le32(n) + rest;
    assert s[..4] == Le32(n) && s[4..] == rest;
  }

  lemma PositionReads(p: P.Position, rest: Bytes)
    ensures TakePosition(PositionBytes(p) + rest) == Value(p, rest)
  {
    var s := PositionBytes(p) + rest;
    assert s[..5] == PositionBytes(p) && s[5..] == rest;
  }

  lemma ItemRefReads(item: ClientItemRef, rest: Bytes)
    ensures TakeItemRef(ItemRefBytes(item) + rest) == Value(item, rest)
  {
    var s := ItemRefBytes(item) + rest;
    assert s[..5] == PositionBytes(item.position) && s[5..7] == Le16(item.itemId) && s[8..] == rest;
  }

  lemma TextReads(text: Bytes, rest: Bytes, utf8: Bytes -> bool)
    requires utf8(text)
    ensures TakeText(text + rest, |text|, utf8) == Value(text, rest)
  {
    assert (text + rest)[..|text|] == text && (text + rest)[|text|..] == rest;
  }

  lemma {:induction false} MoveItemSplits(p: Bytes, id: Bytes, amount: U8, index: U8, q: Bytes, rest: Bytes)
    ensures p + (id + ([amount, index] + q)) + rest == p + (id + ([amount] + ([index] + (q + rest))))
  {
    assert [amount, index] + q + rest == [amount] + ([index] + (q + rest));
    Assoc(id, [amount, index] + q, rest);
    Assoc(p, id + ([amount, index] + q), rest);
  }

  lemma {:induction false} MoveItemReads(item: ClientItemRef, amount: U8, to: P.Position, rest: Bytes)
    ensures TakeMoveItem(MoveItemBytes(item, amount, to) + rest) == Value(MoveItem(item, amount, to), rest)
  {
    var s4 := PositionBytes(to) + rest;
    var s3 := [item.stackIndex] + s4;
    var s2 := [amount] + s3;
    var s1 := Le16(item.itemId) + s2;
    MoveItemSplits(PositionBytes(item.position), Le16(item.itemId), amount, item.stackIndex, PositionBytes(to), rest);
    PositionReads(item.position, s1);
    U16Reads(item.itemId, s2);
    U8Reads(amount, s3);
    U8Reads(item.stackIndex, s4);
    PositionReads(to, rest);
  }

  lemma UseItemWithReads(source: ClientItemRef, target: ClientItemRef, agent: Option<U16>, rest: Bytes)
    requires agent != Some(0xFFFF)
    ensures TakeUseItemWith(BodyOf(UseItemWith(source, target, agent)) + rest)
         == Value(UseItemWith(source, target, agent), rest)
  {
    var s2 := AgentBytes(agent) + rest;
    var s1 := ItemRefBytes(target) + s2;
    assert BodyOf(UseItemWith(source, target, agent)) + rest == ItemRefBytes(source) + s1;
    ItemRefReads(source, s1);
    ItemRefReads(target, s2);
    U16Reads(if agent.Some? then agent.value else 0xFFFF, rest);
  }

  lemma SetTargetReads(agent: Option<U16>, seqNo: U32, rest: Bytes)
    requires agent != Some(0xFFFF)
    ensures TakeSetTarget(BodyOf(SetTarget(agent, seqNo)) + rest) == Value(SetTarget(agent, seqNo), rest)
  {
    var s1 := Le32(seqNo) + rest;
    assert BodyOf(SetTarget(agent, seqNo)) + rest == AgentBytes(agent) + s1;
    U16Reads(if agent.Some? then agent.value else 0xFFFF, s1);
    U32Reads(seqNo, rest);
  }

  lemma SpellTargetReads(t: SpellTarget, rest: Bytes)
    ensures TakeSpellTarget(SpellTargetBytes(t) + rest) == Value(t, rest)
  {
    match t
    case NoTarget => U8Reads(0, rest);
    case AtAgent(agent) =>
      assert SpellTargetBytes(t) + rest == [1] + (Le16(agent) + rest);
      U8Reads(1, Le16(agent) + rest);
      U16Reads(agent, rest);
    case AtPosition(position) =>
      assert SpellTargetBytes(t) + rest == [2] + (PositionBytes(position) + rest);
      U8Reads(2, PositionBytes(position) + rest);
      PositionReads(position, rest);
  }

  lemma CastSpellReads(spell: U16, target: SpellTarget, rest: Bytes)
    ensures TakeCastSpell(BodyOf(CastSpell(spell, target)) + rest) == Value(CastSpell(spell, target), rest)
  {
    var s0 := SpellTargetBytes(target) + rest;
    Regroup([], Le16(spell), SpellTargetBytes(target), [], rest);
    assert BodyOf(CastSpell(spell, target)) + rest == Le16(spell) + s0;
    U16Reads(spell, s0);
    SpellTargetReads(target, rest);
  }

  lemma PrivateSayReads(s: Bytes, s0: Bytes, message: Bytes, name: Bytes, rest: Bytes, utf8: Bytes -> bool)
    requires utf8(message) && utf8(name) && 4 + |name| + |message| <= U16_MAX
    requires TakeU8(s) == Value(2, s0) && TakeU16(s0) == Value(|name|, name + (message + rest))
    ensures TakeSay(s, 4 + |name| + |message|, utf8) == Value(Say(message, Player(name)), rest)
  {
    TextReads(name, message + rest, utf8);
    TextReads(message, rest, utf8);
  }

  lemma ChannelSayReads(s: Bytes, s0: Bytes, message: Bytes, channel: U16, rest: Bytes, utf8: Bytes -> bool)
    requires utf8(message)
    requires TakeU8(s) == Value(3, s0) && TakeU16(s0) == Value(channel, message + rest)
    ensures TakeSay(s, 4 + |message|, utf8) == Value(Say(message, Channel(channel)), rest)
  {
    TextReads(message, rest, utf8);
  }

  lemma LocalSayReads(s: Bytes, message: Bytes, rest: Bytes, utf8: Bytes -> bool)
    requires utf8(message) && TakeU8(s) == Value(1, message + rest)
    ensures TakeSay(s, 2 + |message|, utf8) == Value(Say(message, Local), rest)
  {
    TextReads(message, rest, utf8);
  }

  lemma SayReads(message: Bytes, to: SayTarget, rest: Bytes, utf8: Bytes -> bool)
    requires utf8(message) && (to.Player? ==> utf8(to.name)) && 1 + |SayBytes(message, to)| <= U16_MAX
    ensures TakeSay(SayBytes(message, to) + rest, 1 + |SayBytes(message, to)|, utf8) == Value(Say(message, to), rest)
  {
    var s := SayBytes(message, to) + rest;
    if to.Local? {
      assert s == [1] + (message + rest);
      U8Reads(1, message + rest);
      LocalSayReads(s, message, rest, utf8);
    } else {
      AddressedSayReads(s, message, to, rest, utf8);
    }
  }

  lemma AddressedSayReads(s: Bytes, message: Bytes, to: SayTarget, rest: Bytes, utf8: Bytes -> bool)
    requires !to.Local? && s == SayBytes(message, to) + rest
    requires utf8(message) && (to.Player? ==> utf8(to.name)) && 1 + |SayBytes(message, to)| <= U16_MAX
    ensures TakeSay(s, 1 + |SayBytes(message, to)|, utf8) == Value(Say(message, to), rest)
  {
    AddressedSaySplits(message, to, rest);
    if to.Channel? {
      var s0 := Le16(to.channel) + (message + rest);
      U8Reads(3, s0);
      U16Reads(to.channel, message + rest);
      ChannelSayReads(s, s0, message, to.channel, rest, utf8);
    } else {
      var s0 := Le16(|to.name|) + (to.name + (message + rest));
      U8Reads(2, s0);
      U16Reads(|to.name|, to.name + (message + rest));
      PrivateSayReads(s, s0, message, to.name, rest, utf8);
    }
  }

  lemma AddressedSaySplits(message: Bytes, to: SayTarget, rest: Bytes)
    ensures to.Channel? ==>
              SayBytes(message, to) + rest == [3] + (Le16(to.channel) + (message + rest))
    ensures to.Player? && |to.name| <= U16_MAX ==>
              SayBytes(message, to) + rest == [2] + (Le16(|to.name|) + (to.name + (message + rest)))
  {
    if to.Channel? {
      Regroup([3], Le16(to.channel), message, [], rest);
    } else if to.Player? && |to.name| <= U16_MAX {
      Regroup([2], Le16(|to.name|), to.name, message, rest);
    }
  }

  lemma Regroup(a: Bytes, b: Bytes, c: Bytes, d: Bytes, rest: Bytes)
    ensures a + (b + (c + d)) + rest == a + (b + (c + (d + rest)))
    ensures a + (b + c) + rest == a + (b + (c + rest))
  {
  }

  ghost predicate Reads(m: ClientMessage, rest: Bytes, utf8: Bytes -> bool) {
    TakeBody(TagOf(m), BodyOf(m) + rest, |PayloadOf(m)|, utf8) == Value(m, rest)
  }

  lemma ItemMessagesRead(m: ClientMessage, rest: Bytes, utf8: Bytes -> bool)
    requires m.UseItem? || m.Look? || m.MoveItem? || (m.UseItemWith? && m.targetAgent != Some(0xFFFF))
    ensures Reads(m, rest, utf8)
  {
    match m
    case UseItem(item) => ItemRefReads(item, rest);
    case Look(position) => PositionReads(position, rest);
    case MoveItem(item, amount, to) => MoveItemReads(item, amount, to, rest);
    case UseItemWith(source, target, agent) => UseItemWithReads(source, target, agent, rest);
  }

  lemma AimedMessagesRead(m: ClientMessage, rest: Bytes, utf8: Bytes -> bool)
    requires m.CastSpell? || (m.SetTarget? && m.agent != Some(0xFFFF))
    ensures Reads(m, rest, utf8)
  {
    match m
    case CastSpell(spell, target) => CastSpellReads(spell, target, rest);
    case SetTarget(agent, seqNo) => SetTargetReads(agent, seqNo, rest);
  }

  lemma IdMessagesRead(m: ClientMessage, rest: Bytes, utf8: Bytes -> bool)
    requires m.CloseContainer? || m.OpenParentContainer? || m.OpenChannel? || m.CloseChannel?
    ensures Reads(m, rest, utf8)
  {
    U16Reads(if m.CloseContainer? || m.OpenParentContainer? then m.container else m.channel, rest);
  }

  lemma ByteMessagesRead(m: ClientMessage, rest: Bytes, utf8: Bytes -> bool)
    requires m.MovePlayer? || m.ChangeDirection?
    ensures Reads(m, rest, utf8)
  {
    U8Reads(if m.MovePlayer? then ByteOfDirection(m.direction) else ByteOfFacing(m.facing), rest);
  }

  lemma TextMessagesRead(m: ClientMessage, rest: Bytes, utf8: Bytes -> bool)
    requires Texts(m, utf8) && |PayloadOf(m)| <= U16_MAX && (m.Say? || m.Login? || m.OpenPmChat?)
    ensures Reads(m, rest, utf8)
  {
    match m
    case Say(message, to) => SayReads(message, to, rest, utf8);
    case Login(token) => TextReads(token, rest, utf8);
    case OpenPmChat(name) => TextReads(name, rest, utf8);
  }

  lemma BareMessagesRead(m: ClientMessage, rest: Bytes, utf8: Bytes -> bool)
    requires m.Ping? || m.GetPlayerPosition? || m.Logout? || m.RequestChannels?
    ensures Reads(m, rest, utf8)
  {
    assert BodyOf(m) + rest == rest;
  }

  lemma BodyReads(m: ClientMessage, rest: Bytes, utf8: Bytes -> bool)
    requires Texts(m, utf8) && NamesAgents(m) && (SizedByItsFrame(m) ==> |PayloadOf(m)| <= U16_MAX)
    ensures Reads(m, rest, utf8)
  {
    if m.UseItem? || m.Look? || m.MoveItem? || m.UseItemWith? {
      ItemMessagesRead(m, rest, utf8);
    } else if m.CastSpell? || m.SetTarget? {
      AimedMessagesRead(m, rest, utf8);
    } else if m.Say? || m.Login? || m.OpenPmChat? {
      TextMessagesRead(m, rest, utf8);
    } else if m.MovePlayer? || m.ChangeDirection? {
      ByteMessagesRead(m, rest, utf8);
    } else if m.Ping? || m.GetPlayerPosition? || m.Logout? || m.RequestChannels? {
      BareMessagesRead(m, rest, utf8);
    } else {
      IdMessagesRead(m, rest, utf8);
    }
  }

  // How the length prefix delimits a payload, whatever the payload says.
  lemma FramedReads(tag: U8, body: Bytes, rest: Bytes, utf8: Bytes -> bool)
    requires 1 + |body| <= U16_MAX
    ensures var s := Framed([tag] + body) + rest;
            !Incomplete(s) && TakeFrame(s, utf8) == TakeBody(tag, body + rest, 1 + |body|, utf8)
  {
    var size := Le16(1 + |body|);
    var s := Framed([tag] + body) + rest;
    assert s == size + ([tag] + (body + rest)) by { Regroup([], size, [tag], body, rest); }
    assert s[0] == size[0] && s[1] == size[1];
    assert s[2..] == [tag] + (body + rest);
    U8Reads(tag, body + rest);
  }

  lemma CutFrameIsIncomplete(payload: Bytes, k: nat)
    requires |payload| <= U16_MAX && k < |Framed(payload)|
    ensures Incomplete(Framed(payload)[..k])
  {
    var size := Le16(|payload|);
    assert Framed(payload)[0] == size[0] && Framed(payload)[1] == size[1];
  }

  // Reading undoes printing, whatever follows the frame.
  lemma FrameReads(m: ClientMessage, rest: Bytes, utf8: Bytes -> bool)
    requires WellFormed(m, utf8)
    ensures !Incomplete(FrameOf(m) + rest) && TakeFrame(FrameOf(m) + rest, utf8) == Value(m, rest)
  {
    FramedReads(TagOf(m), BodyOf(m), rest, utf8);
    BodyReads(m, rest, utf8);
  }

  // Part of a frame is not a frame.
  lemma PartialFrameIsIncomplete(m: ClientMessage, k: nat)
    requires |PayloadOf(m)| <= U16_MAX && k < |FrameOf(m)|
    ensures Incomplete(FrameOf(m)[..k])
  {
    CutFrameIsIncomplete(PayloadOf(m), k);
  }

  // ---------------------------------------------------------------- reading only what was printed

  lemma U8WasPrinted(s: Bytes)
    requires TakeU8(s).Value?
    ensures s == [TakeU8(s).v] + TakeU8(s).rest
  {
  }

  lemma U16WasPrinted(s: Bytes)
    requires TakeU16(s).Value?
    ensures s == Le16(TakeU16(s).v) + TakeU16(s).rest
  {
    Le16Of(s[0], s[1]);
    assert s == [s[0], s[1]] + s[2..];
  }

  lemma PositionWasPrinted(s: Bytes)
    requires |s| >= 5
    ensures s == PositionBytes(PositionAt(s)) + s[5..]
  {
    Le16Of(s[0], s[1]);
    Le16Of(s[2], s[3]);
    assert s == [s[0], s[1]] + [s[2], s[3]] + [s[4]] + s[5..];
  }

  lemma ItemRefWasPrinted(s: Bytes)
    requires TakeItemRef(s).Value?
    ensures s == ItemRefBytes(TakeItemRef(s).v) + TakeItemRef(s).rest
  {
    PositionWasPrinted(s);
    Le16Of(s[5], s[6]);
    assert s[5..] == [s[5], s[6]] + [s[7]] + s[8..];
    Assoc(PositionBytes(PositionAt(s)), [s[5], s[6]] + [s[7]], s[8..]);
    Assoc(PositionBytes(PositionAt(s)), [s[5], s[6]], [s[7]]);
  }

  lemma TextWasPrinted(s: Bytes, n: nat, utf8: Bytes -> bool)
    requires TakeText(s, n, utf8).Value?
    ensures var t := TakeText(s, n, utf8); s == t.v + t.rest && |t.v| == n && utf8(t.v)
  {
  }

  lemma AgentWasPrinted(s: Bytes)
    requires TakeU16(s).Value?
    ensures s == AgentBytes(OptionalAgent(TakeU16(s).v)) + TakeU16(s).rest
    ensures OptionalAgent(TakeU16(s).v) != Some(0xFFFF)
  {
    U16WasPrinted(s);
  }

  // `m` is what the body says, and its texts fill the frame.
  ghost predicate IsBody(m: ClientMessage, tag: U8, s: Bytes, rest: Bytes, payload: nat, utf8: Bytes -> bool) {
    && TagOf(m) == tag && s == BodyOf(m) + rest && Texts(m, utf8) && NamesAgents(m)
    && (SizedByItsFrame(m) ==> |PayloadOf(m)| == payload)
  }

  lemma MoveItemWasPrinted(s: Bytes, payload: nat, utf8: Bytes -> bool)
    requires TakeMoveItem(s).Value?
    ensures IsBody(TakeMoveItem(s).v, 4, s, TakeMoveItem(s).rest, payload, utf8)
  {
    var from := TakePosition(s);
    var id := TakeU16(from.rest);
    var amount := TakeU8(id.rest);
    var index := TakeU8(amount.rest);
    var to := TakePosition(index.rest);
    PositionWasPrinted(s);
    U16WasPrinted(from.rest);
    U8WasPrinted(id.rest);
    U8WasPrinted(amount.rest);
    PositionWasPrinted(index.rest);
    MoveItemSplits(PositionBytes(from.v), Le16(id.v), amount.v, index.v, PositionBytes(to.v), to.rest);
  }

  lemma IsUseItemWith(source: ClientItemRef, target: ClientItemRef, agent: Option<U16>, s: Bytes, rest: Bytes,
                      payload: nat, utf8: Bytes -> bool)
    requires agent != Some(0xFFFF) && s == ItemRefBytes(source) + (ItemRefBytes(target) + (AgentBytes(agent) + rest))
    ensures IsBody(UseItemWith(source, target, agent), 10, s, rest, payload, utf8)
  {
    Regroup([], ItemRefBytes(source), ItemRefBytes(target), AgentBytes(agent), rest);
    assert BodyOf(UseItemWith(source, target, agent)) + rest == s;
  }

  lemma UseItemWithWasPrinted(s: Bytes, payload: nat, utf8: Bytes -> bool)
    requires TakeUseItemWith(s).Value?
    ensures IsBody(TakeUseItemWith(s).v, 10, s, TakeUseItemWith(s).rest, payload, utf8)
  {
    var source := TakeItemRef(s);
    var target := TakeItemRef(source.rest);
    var agent := TakeU16(target.rest);
    ItemRefWasPrinted(s);
    ItemRefWasPrinted(source.rest);
    AgentWasPrinted(target.rest);
    assert TakeUseItemWith(s) == Value(UseItemWith(source.v, target.v, OptionalAgent(agent.v)), agent.rest);
    IsUseItemWith(source.v, target.v, OptionalAgent(agent.v), s, agent.rest, payload, utf8);
  }

  lemma SetTargetWasPrinted(s: Bytes, payload: nat, utf8: Bytes -> bool)
    requires TakeSetTarget(s).Value?
    ensures IsBody(TakeSetTarget(s).v, 17, s, TakeSetTarget(s).rest, payload, utf8)
  {
    var agent := TakeU16(s);
    AgentWasPrinted(s);
    var raw := agent.rest;
    Le16Of(raw[0], raw[1]);
    Le16Of(raw[2], raw[3]);
    Le32Of(FromLe16(raw[0], raw[1]), FromLe16(raw[2], raw[3]));
    assert raw == [raw[0], raw[1]] + [raw[2], raw[3]] + raw[4..];
    Assoc(AgentBytes(OptionalAgent(agent.v)), Le32(TakeU32(agent.rest).v), TakeU32(agent.rest).rest);
  }

  lemma SpellTargetWasPrinted(s: Bytes)
    requires TakeSpellTarget(s).Value?
    ensures s == SpellTargetBytes(TakeSpellTarget(s).v) + TakeSpellTarget(s).rest
  {
    var kind := TakeU8(s);
    U8WasPrinted(s);
    if kind.v == 1 {
      U16WasPrinted(kind.rest);
      Assoc([1], Le16(TakeU16(kind.rest).v), TakeU16(kind.rest).rest);
    } else if kind.v == 2 {
      PositionWasPrinted(kind.rest);
      Assoc([2], PositionBytes(PositionAt(kind.rest)), kind.rest[5..]);
    }
  }

  lemma CastSpellWasPrinted(s: Bytes, payload: nat, utf8: Bytes -> bool)
    requires TakeCastSpell(s).Value?
    ensures IsBody(TakeCastSpell(s).v, 18, s, TakeCastSpell(s).rest, payload, utf8)
  {
    var spell := TakeU16(s);
    var target := TakeSpellTarget(spell.rest);
    U16WasPrinted(s);
    SpellTargetWasPrinted(spell.rest);
    Assoc(Le16(spell.v), SpellTargetBytes(target.v), target.rest);
  }

  lemma SayWasPrinted(s: Bytes, payload: nat, utf8: Bytes -> bool)
    requires TakeSay(s, payload, utf8).Value?
    ensures IsBody(TakeSay(s, payload, utf8).v, 12, s, TakeSay(s, payload, utf8).rest, payload, utf8)
  {
    var kind := TakeU8(s);
    U8WasPrinted(s);
    if kind.v == 1 {
      TextWasPrinted(kind.rest, payload - 2, utf8);
      var message := TakeText(kind.rest, payload - 2, utf8);
      Assoc([1], message.v, message.rest);
    } else if kind.v == 2 {
      PrivateSayWasPrinted(s, payload, utf8);
    } else {
      U16WasPrinted(kind.rest);
      var channel := TakeU16(kind.rest);
      TextWasPrinted(channel.rest, payload - 4, utf8);
      var message := TakeText(channel.rest, payload - 4, utf8);
      AddressedSaySplits(message.v, Channel(channel.v), message.rest);
    }
  }

  lemma PrivateSayWasPrinted(s: Bytes, payload: nat, utf8: Bytes -> bool)
    requires TakeSay(s, payload, utf8).Value? && TakeU8(s).v == 2
    ensures IsBody(TakeSay(s, payload, utf8).v, 12, s, TakeSay(s, payload, utf8).rest, payload, utf8)
  {
    var kind := TakeU8(s);
    var n := TakeU16(kind.rest);
    var name := TakeText(n.rest, n.v, utf8);
    var message := TakeText(name.rest, payload - 4 - n.v, utf8);
    U8WasPrinted(s);
    U16WasPrinted(kind.rest);
    TextWasPrinted(n.rest, n.v, utf8);
    TextWasPrinted(name.rest, payload - 4 - n.v, utf8);
    AddressedSaySplits(message.v, Player(name.v), message.rest);
  }

  lemma IdWasPrinted(tag: U8, s: Bytes, payload: nat, utf8: Bytes -> bool)
    requires tag in {6, 7, 14, 15} && TakeIdMessage(tag, s).Value?
    ensures IsBody(TakeIdMessage(tag, s).v, tag, s, TakeIdMessage(tag, s).rest, payload, utf8)
  {
    U16WasPrinted(s);
  }

  lemma TextMessageWasPrinted(tag: U8, s: Bytes, payload: nat, utf8: Bytes -> bool)
    requires tag in {1, 16} && payload >= 1 && TakeTextMessage(tag, s, payload, utf8).Value?
    ensures var r := TakeTextMessage(tag, s, payload, utf8); IsBody(r.v, tag, s, r.rest, payload, utf8)
  {
    TextWasPrinted(s, payload - 1, utf8);
  }

  lemma ByteWasPrinted(tag: U8, s: Bytes, payload: nat, utf8: Bytes -> bool)
    requires tag in {2, 8} && (if tag == 2 then TakeMovePlayer(s) else TakeChangeDirection(s)).Value?
    ensures var r := if tag == 2 then TakeMovePlayer(s) else TakeChangeDirection(s);
            IsBody(r.v, tag, s, r.rest, payload, utf8)
  {
    U8WasPrinted(s);
  }

  lemma BodyWasPrinted(tag: U8, s: Bytes, payload: nat, utf8: Bytes -> bool)
    requires payload >= 1 && TakeBody(tag, s, payload, utf8).Value?
    ensures var r := TakeBody(tag, s, payload, utf8); IsBody(r.v, tag, s, r.rest, payload, utf8)
  {
    if tag in {6, 7, 14, 15} {
      IdWasPrinted(tag, s, payload, utf8);
    } else if tag in {1, 16} {
      TextMessageWasPrinted(tag, s, payload, utf8);
    } else if tag in {2, 8} {
      ByteWasPrinted(tag, s, payload, utf8);
    } else if tag in {0, 3, 9, 13} {
      assert [] + s == s;
    } else {
      FieldsWerePrinted(tag, s, payload, utf8);
    }
  }

  lemma FieldsWerePrinted(tag: U8, s: Bytes, payload: nat, utf8: Bytes -> bool)
    requires tag in {4, 5, 10, 11, 12, 17, 18} && payload >= 1 && TakeBody(tag, s, payload, utf8).Value?
    ensures var r := TakeBody(tag, s, payload, utf8); IsBody(r.v, tag, s, r.rest, payload, utf8)
  {
    match tag {
      case 4 => MoveItemWasPrinted(s, payload, utf8);
      case 5 => ItemRefWasPrinted(s);
      case 10 => UseItemWithWasPrinted(s, payload, utf8);
      case 11 => PositionWasPrinted(s);
      case 12 => SayWasPrinted(s, payload, utf8);
      case 17 => SetTargetWasPrinted(s, payload, utf8);
      case _ => CastSpellWasPrinted(s, payload, utf8);
    }
  }

  // Only texts look at the length of their frame.
  lemma OthersIgnoreTheLength(tag: U8, s: Bytes, a: nat, b: nat, utf8: Bytes -> bool)
    requires a >= 1 && b >= 1 && tag !in {1, 12, 16}
    ensures TakeBody(tag, s, a, utf8) == TakeBody(tag, s, b, utf8)
  {
  }

  // A whole frame is read as a message, and as far as `rest`, if and only if behind its length
  // stand the message's bytes and then `rest`: valid text, and where the length of a text is that
  // of its frame, exactly as long as the frame says. Every other frame is refused.
  lemma FramesAreWhatIsPrinted(s: Bytes, m: ClientMessage, rest: Bytes, utf8: Bytes -> bool)
    requires !Incomplete(s)
    ensures TakeFrame(s, utf8) == Value(m, rest) <==>
              && s[2..] == PayloadOf(m) + rest && Texts(m, utf8) && NamesAgents(m)
              && FromLe16(s[0], s[1]) > 0 && (SizedByItsFrame(m) ==> |PayloadOf(m)| == FromLe16(s[0], s[1]))
  {
    var payload := FromLe16(s[0], s[1]);
    if TakeFrame(s, utf8) == Value(m, rest) {
      U8WasPrinted(s[2..]);
      BodyWasPrinted(s[2], s[3..], payload, utf8);
      assert s[2..][1..] == s[3..];
      Assoc([TagOf(m)], BodyOf(m), rest);
    }
    if s[2..] == PayloadOf(m) + rest && Texts(m, utf8) && NamesAgents(m) && payload > 0
       && (SizedByItsFrame(m) ==> |PayloadOf(m)| == payload) {
      Assoc([TagOf(m)], BodyOf(m), rest);
      U8Reads(TagOf(m), BodyOf(m) + rest);
      BodyReads(m, rest, utf8);
      if !SizedByItsFrame(m) { OthersIgnoreTheLength(TagOf(m), BodyOf(m) + rest, |PayloadOf(m)|, payload, utf8); }
    }
  }

  // ---------------------------------------------------------------- the decoder

  ghost predicate AllWellFormed(ms: seq<ClientMessage>, utf8: Bytes -> bool) {
    forall m :: m in ms ==> WellFormed(m, utf8)
  }

  function StreamOf(ms: seq<ClientMessage>): Bytes {
    if ms == [] then [] else FrameOf(ms[0]) + StreamOf(ms[1..])
  }

  function Joined(chunks: seq<Bytes>): Bytes {
    if chunks == [] then [] else chunks[0] + Joined(chunks[1..])
  }

  // Of a stream of whole frames, `arrived` has come in: either the first frame is there and
  // decodes, leaving the others, or it is not and nothing can be decoded yet.
  lemma {:induction false} NextOfStream(ms: seq<ClientMessage>, arrived: Bytes, coming: Bytes, utf8: Bytes -> bool)
    requires AllWellFormed(ms, utf8) && arrived + coming == StreamOf(ms)
    ensures Incomplete(arrived) ==> ms == [] || |arrived| < |FrameOf(ms[0])|
    ensures !Incomplete(arrived) ==>
              && ms != []
              && TakeFrame(arrived, utf8).Value?
              && TakeFrame(arrived, utf8).v == ms[0]
              && TakeFrame(arrived, utf8).rest + coming == StreamOf(ms[1..])
  {
    if ms != [] {
      var frame := FrameOf(ms[0]);
      assert ms[0] in ms && WellFormed(ms[0], utf8);
      CutStream(frame, StreamOf(ms[1..]), arrived, coming);
      if |arrived| < |frame| {
        PartialFrameIsIncomplete(ms[0], |arrived|);
      } else {
        FrameReads(ms[0], arrived[|frame|..], utf8);
      }
    }
  }

  lemma CutStream(frame: Bytes, tail: Bytes, arrived: Bytes, coming: Bytes)
    requires arrived + coming == frame + tail
    ensures |arrived| < |frame| ==> arrived == frame[..|arrived|]
    ensures |arrived| >= |frame| ==>
              arrived == frame + arrived[|frame|..] && arrived[|frame|..] + coming == tail
  {
    var s := arrived + coming;
    if |arrived| < |frame| {
      assert arrived == s[..|arrived|];
    } else {
      assert frame == s[..|frame|] == arrived[..|frame|];
      assert s[|frame|..] == tail;
    }
  }

  class Decoder {
    var buf: Bytes
    const utf8: Bytes -> bool

    constructor (utf8: Bytes -> bool)
      ensures buf == [] && this.utf8 == utf8
    {
      buf := [];
      this.utf8 := utf8;
    }

    // `None` asks for more bytes and takes none.
    method Decode() returns (r: Result<Option<ClientMessage>, DecodeError>)
      modifies this
      ensures Incomplete(old(buf)) ==> r == Ok(None) && buf == old(buf)
      ensures !Incomplete(old(buf)) ==>
                match TakeFrame(old(buf), utf8)
                case Value(m, rest) => r == Ok(Some(m)) && buf == rest
                case Fail(e) => r == Err(e)
    {
      if |buf| < 2 {
        return Ok(None);
      }
      var payload := FromLe16(buf[0], buf[1]);
      if |buf| < 2 + payload {
        return Ok(None);
      }
      if payload == 0 {
        return Err(WrongSequence);
      }
      buf := buf[2..];
      match TakeMessage(buf, payload, utf8) {
        case Value(m, rest) =>
          buf := rest;
          r := Ok(Some(m));
        case Fail(e) =>
          r := Err(e);
      }
    }

    // The same step against a stream of whole frames: the next message, once its last byte is in.
    method DecodeNext(ghost ms: seq<ClientMessage>, ghost coming: Bytes)
      returns (r: Result<Option<ClientMessage>, DecodeError>)
      requires AllWellFormed(ms, utf8) && buf + coming == StreamOf(ms)
      modifies this
      ensures Incomplete(old(buf)) ==> r == Ok(None) && buf == old(buf)
      ensures !Incomplete(old(buf)) ==> ms != [] && r == Ok(Some(ms[0])) && buf + coming == StreamOf(ms[1..])
    {
      NextOfStream(ms, buf, coming, utf8);
      r := Decode();
    }

    // Takes every message that is complete.
    method Drain(ghost ms: seq<ClientMessage>, ghost coming: Bytes)
      returns (got: seq<ClientMessage>, ghost todo: seq<ClientMessage>)
      requires AllWellFormed(ms, utf8) && buf + coming == StreamOf(ms)
      modifies this
      ensures got + todo == ms && buf + coming == StreamOf(todo)
      ensures Incomplete(buf)
    {
      got, todo := [], ms;
      while true
        invariant got + todo == ms && buf + coming == StreamOf(todo)
        decreases |todo|
      {
        assert forall m :: m in todo ==> m in got + todo;
        var r := DecodeNext(todo, coming);
        match r {
          case Ok(Some(m)) =>
            got, todo := got + [m], todo[1..];
          case _ =>
            return;
        }
      }
    }

    // One read from the network.
    method Feed(chunk: Bytes, ghost ms: seq<ClientMessage>, ghost coming: Bytes)
      returns (got: seq<ClientMessage>, ghost todo: seq<ClientMessage>)
      requires AllWellFormed(ms, utf8) && buf + (chunk + coming) == StreamOf(ms)
      modifies this
      ensures got + todo == ms && buf + coming == StreamOf(todo)
      ensures Incomplete(buf)
    {
      Regroup(buf, chunk, coming, [], []);
      buf := buf + chunk;
      got, todo := Drain(ms, coming);
    }
  }

  // However the bytes of a list of messages are cut into chunks, decoding after each chunk
  // yields that list, in order, and stops on a frame boundary.
  method ReadStream(chunks: seq<Bytes>, utf8: Bytes -> bool, ghost ms: seq<ClientMessage>)
    returns (got: seq<ClientMessage>, left: Bytes)
    requires AllWellFormed(ms, utf8) && Joined(chunks) == StreamOf(ms)
    ensures got == ms && left == []
  {
    var decoder := new Decoder(utf8);
    got := [];
    ghost var todo := ms;
    var i := 0;
    while i < |chunks|
      invariant 0 <= i <= |chunks| && decoder.utf8 == utf8 && fresh(decoder)
      invariant got + todo == ms
      invariant decoder.buf + Joined(chunks[i..]) == StreamOf(todo)
      invariant Incomplete(decoder.buf)
    {
      assert chunks[i..][1..] == chunks[i + 1..];
      assert forall m :: m in todo ==> m in got + todo;
      var more;
      more, todo := decoder.Feed(chunks[i], todo, Joined(chunks[i + 1..]));
      got := got + more;
      i := i + 1;
    }
    left := decoder.buf;
    assert forall m :: m in todo ==> m in got + todo;
    EndOfStream(todo, left, utf8);
  }

  lemma EndOfStream(ms: seq<ClientMessage>, left: Bytes, utf8: Bytes -> bool)
    requires AllWellFormed(ms, utf8) && left + [] == StreamOf(ms) && Incomplete(left)
    ensures ms == [] && left == []
  {
    NextOfStream(ms, left, [], utf8);
  }
}
