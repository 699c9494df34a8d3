/** What a tick reports to its clients, and the pass that drops superseded refreshes. */
module Events {
  import opened Wrappers
  import opened Positions

  datatype BroadcastMessage =
    | TileChanged(position: Position)
    | PlayerManaUpdated(agentKey: AgentKey)
    | UpdateInventorySlot(agentKey: AgentKey, slot: InventorySlot)
    | ContainerUpdated(guid: Guid, placement: ItemPlacement)
    | MoveItemDenied(agentKey: AgentKey)
    | LogoutDenied(agentKey: AgentKey)
    | AgentDespawned(agentKey: AgentKey, position: Position)
    | AgentLostTarget(agentKey: AgentKey, seqNo: U32)
    | DamageTaken(agentKey: AgentKey, position: Position, value: U32)
    | SkillUpgraded(agentKey: AgentKey, gained: nat, amount: U64)
    | SkillProgressUpdated(agentKey: AgentKey, amount: U64)
    | Other(name: string) // the remaining messages, none of which carries a refresh key

  datatype RefreshKey =
    | TileKey(position: Position)
    | ManaKey(agentKey: AgentKey)
    | SlotKey(agentKey: AgentKey, slot: InventorySlot)
    | ContainerKey(guid: Guid)

  function KeyOf(m: BroadcastMessage): Option<RefreshKey> {
    match m
    case TileChanged(position) => Some(TileKey(position))
    case PlayerManaUpdated(agentKey) => Some(ManaKey(agentKey))
    case UpdateInventorySlot(agentKey, slot) => Some(SlotKey(agentKey, slot))
    case ContainerUpdated(guid, _) => Some(ContainerKey(guid))
    case _ => None
  }

  // Two messages refresh the same when both are about the same tile, the same player's mana, the
  // same slot of the same player, or the same container wherever it is - and nothing else does.
  lemma RefreshTheSameIff(a: BroadcastMessage, b: BroadcastMessage)
    ensures KeyOf(a).Some? && KeyOf(a) == KeyOf(b) <==>
              || (a.TileChanged? && b.TileChanged? && a.position == b.position)
              || (a.PlayerManaUpdated? && b.PlayerManaUpdated? && a.agentKey == b.agentKey)
              || (a.UpdateInventorySlot? && b.UpdateInventorySlot? && a.agentKey == b.agentKey && a.slot == b.slot)
              || (a.ContainerUpdated? && b.ContainerUpdated? && a.guid == b.guid)
  {
  }

  // A message survives when nothing after it refreshes the same thing.
  ghost predicate Current(s: seq<BroadcastMessage>, i: int)
    requires 0 <= i < |s|
  {
    KeyOf(s[i]).Some? ==> forall j :: i < j < |s| ==> KeyOf(s[j]) != KeyOf(s[i])
  }

  ghost function Deduped(s: seq<BroadcastMessage>): (r: seq<BroadcastMessage>)
    ensures |r| <= |s|
  {
    if s == [] then []
    else (if Current(s, 0) then [s[0]] else []) + Deduped(s[1..])
  }

  ghost function Keys(s: seq<BroadcastMessage>): set<RefreshKey> {
    set i | 0 <= i < |s| && KeyOf(s[i]).Some? :: KeyOf(s[i]).value
  }

  function Reversed<T>(s: seq<T>): (r: seq<T>)
    ensures |r| == |s|
  {
    if s == [] then [] else Reversed(s[1..]) + [s[0]]
  }

  lemma {:induction false} ReversedAppend<T>(s: seq<T>, x: T)
    ensures Reversed(s + [x]) == [x] + Reversed(s)
  {
    if s == [] {
    } else {
      assert (s + [x])[1..] == s[1..] + [x];
      ReversedAppend(s[1..], x);
    }
  }

  // Walks the messages newest first, keeping one of each key, and turns the result round.
  method DedupeRefreshes(messages: seq<BroadcastMessage>) returns (result: seq<BroadcastMessage>)
    ensures result == Deduped(messages)
  {
    var seen: set<RefreshKey> := {};
    var kept: seq<BroadcastMessage> := [];
    var i := |messages|;
    while i > 0
      invariant 0 <= i <= |messages|
      invariant seen == Keys(messages[i..])
      invariant Reversed(kept) == Deduped(messages[i..])
    {
      i := i - 1;
      var message := messages[i];
      assert messages[i..][1..] == messages[i + 1..] && messages[i..][0] == message;
      KeysOfCons(messages[i..]);
      CurrentIffUnseen(messages[i..]);
      match KeyOf(message) {
        case Some(key) =>
          if key in seen { continue; }
          seen := seen + {key};
        case None =>
      }
      ReversedAppend(kept, message);
      kept := kept + [message];
    }
    assert messages[0..] == messages;
    result := Reversed(kept);
  }

  lemma KeysOfCons(s: seq<BroadcastMessage>)
    requires s != []
    ensures Keys(s) == Keys(s[1..]) + (if KeyOf(s[0]).Some? then {KeyOf(s[0]).value} else {})
  {
    forall k | k in Keys(s[1..]) ensures k in Keys(s) {
      var i :| 0 <= i < |s| - 1 && KeyOf(s[1..][i]) == Some(k);
      assert KeyOf(s[i + 1]) == Some(k);
    }
    forall k | k in Keys(s) && KeyOf(s[0]) != Some(k) ensures k in Keys(s[1..]) {
      var i :| 0 <= i < |s| && KeyOf(s[i]) == Some(k);
      assert KeyOf(s[1..][i - 1]) == Some(k);
    }
  }

  lemma CurrentIffUnseen(s: seq<BroadcastMessage>)
    requires s != []
    ensures Current(s, 0) <==> (KeyOf(s[0]).None? || KeyOf(s[0]).value !in Keys(s[1..]))
  {
    if KeyOf(s[0]).Some? && KeyOf(s[0]).value in Keys(s[1..]) {
      var i :| 0 <= i < |s| - 1 && KeyOf(s[1..][i]) == KeyOf(s[0]);
      assert KeyOf(s[i + 1]) == KeyOf(s[0]);
    }
    if !Current(s, 0) {
      var j :| 0 < j < |s| && KeyOf(s[j]) == KeyOf(s[0]);
      assert KeyOf(s[1..][j - 1]) == KeyOf(s[0]);
    }
  }

  // ---------------------------------------------------------------- what survives

  // `at` names the places of `s` that `r` was read from, in order.
  ghost predicate Selects(s: seq<BroadcastMessage>, at: seq<nat>, r: seq<BroadcastMessage>) {
    && |at| == |r|
    && (forall k :: 0 <= k < |at| ==> at[k] < |s| && s[at[k]] == r[k])
    && (forall k, l :: 0 <= k < l < |at| ==> at[k] < at[l])
  }

  // The result is the subsequence of exactly the current messages: every unkeyed one, and
  // of each key the last.
  lemma {:induction false} KeepsExactlyTheCurrent(s: seq<BroadcastMessage>) returns (at: seq<nat>)
    ensures Selects(s, at, Deduped(s))
    ensures forall i: nat :: i < |s| ==> (Current(s, i) <==> i in at)
  {
    if s == [] { return []; }
    var tail := KeepsExactlyTheCurrent(s[1..]);
    at := ConsSelection(s, tail);
    forall i: nat | 0 < i < |s| ensures Current(s, i) <==> i in at {
      CurrentInTail(s, i);
      assert i in at <==> i - 1 in tail;
    }
  }

  ghost function Shifted(at: seq<nat>): (r: seq<nat>)
    ensures |r| == |at| && forall k :: 0 <= k < |at| ==> r[k] == at[k] + 1
    ensures 0 !in r && forall i: nat :: i + 1 in r <==> i in at
  {
    var r := seq(|at|, k requires 0 <= k < |at| => at[k] + 1);
    assert forall i: nat :: i in at ==> i + 1 in r by {
      forall i: nat | i in at ensures i + 1 in r {
        var k :| 0 <= k < |at| && at[k] == i;
        assert r[k] == i + 1;
      }
    }
    r
  }

  lemma {:induction false} ConsIn(tail: seq<nat>)
    ensures 0 in [0] + Shifted(tail)
    ensures forall i: nat :: i + 1 in [0] + Shifted(tail) <==> i in tail
  {
    var at: seq<nat> := [0] + Shifted(tail);
    assert forall i: nat :: i in at <==> i == 0 || i in Shifted(tail);
  }

  lemma {:induction false} ConsSelection(s: seq<BroadcastMessage>, tail: seq<nat>) returns (at: seq<nat>)
    requires s != [] && Selects(s[1..], tail, Deduped(s[1..]))
    ensures Selects(s, at, Deduped(s))
    ensures 0 in at <==> Current(s, 0)
    ensures forall i: nat :: i + 1 in at <==> i in tail
  {
    var r := Deduped(s[1..]);
    var shifted := Shifted(tail);
    ShiftedSelects(s, tail, r);
    if Current(s, 0) {
      ConsIn(tail);
      at := [0] + shifted;
    } else {
      at := shifted;
      assert [] + r == r;
    }
  }

  lemma {:induction false} ShiftedSelects(s: seq<BroadcastMessage>, tail: seq<nat>, r: seq<BroadcastMessage>)
    requires s != [] && Selects(s[1..], tail, r)
    ensures Selects(s, Shifted(tail), r)
    ensures Selects(s, [0] + Shifted(tail), [s[0]] + r)
  {
  }

  lemma CurrentInTail(s: seq<BroadcastMessage>, i: int)
    requires 0 < i < |s|
    ensures Current(s, i) <==> Current(s[1..], i - 1)
  {
    forall j | i < j < |s| ensures s[j] == s[1..][j - 1] {}
    forall j | i - 1 < j < |s| - 1 ensures s[1..][j] == s[j + 1] {}
  }

  // No refresh key is lost and none is reported twice.
  lemma OneRefreshPerKey(s: seq<BroadcastMessage>)
    ensures Keys(Deduped(s)) == Keys(s)
    ensures forall i :: 0 <= i < |Deduped(s)| ==> Current(Deduped(s), i)
  {
    var at := KeepsExactlyTheCurrent(s);
    var r := Deduped(s);
    forall k | k in Keys(r) ensures k in Keys(s) {
      var i :| 0 <= i < |r| && KeyOf(r[i]) == Some(k);
      assert KeyOf(s[at[i]]) == Some(k);
    }
    forall k | k in Keys(s) ensures k in Keys(r) {
      var i :| 0 <= i < |s| && KeyOf(s[i]) == Some(k);
      var last := LastOfKey(s, i);
      assert last in at;
      var j :| 0 <= j < |at| && at[j] == last;
      assert KeyOf(r[j]) == Some(k);
    }
    forall i | 0 <= i < |r| ensures Current(r, i) {
      assert Current(s, at[i]) by { assert at[i] in at; }
      forall j | i < j < |r| && KeyOf(r[i]).Some? ensures KeyOf(r[j]) != KeyOf(r[i]) {
        assert KeyOf(s[at[j]]) != KeyOf(s[at[i]]);
      }
    }
  }

  lemma LastOfKey(s: seq<BroadcastMessage>, i: nat) returns (last: nat)
    requires i < |s| && KeyOf(s[i]).Some?
    ensures i <= last < |s| && KeyOf(s[last]) == KeyOf(s[i]) && Current(s, last)
    decreases |s| - i
  {
    if j: nat :| i < j < |s| && KeyOf(s[j]) == KeyOf(s[i]) {
      last := LastOfKey(s, j);
    } else {
      last := i;
    }
  }

  // A list whose every message is current is left alone, so the pass is idempotent.
  lemma {:induction false} CurrentListsAreFixed(s: seq<BroadcastMessage>)
    requires forall i :: 0 <= i < |s| ==> Current(s, i)
    ensures Deduped(s) == s
  {
    if s != [] {
      forall i | 0 <= i < |s| - 1 ensures Current(s[1..], i) { CurrentInTail(s, i + 1); }
      CurrentListsAreFixed(s[1..]);
    }
  }

  lemma DedupeIsIdempotent(s: seq<BroadcastMessage>)
    ensures Deduped(Deduped(s)) == Deduped(s)
  {
    OneRefreshPerKey(s);
    CurrentListsAreFixed(Deduped(s));
  }
}
