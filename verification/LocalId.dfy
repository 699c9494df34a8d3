/**
 The session-local id allocator: a 12-bit slot index and a 4-bit generation packed into
 one wire id, slots handed out by a cyclic cursor.

 `IdState` is the allocator as one would like it to be: every slot exists from the start
 and counts its frees without bound, so an id is a pair (index, frees) and a stale one can
 never resolve. `LocalIdMap` is the allocator as it is: slots appear on demand, the count
 is kept modulo 16, and a reverse map is maintained beside the slots. Each operation of
 the class is proved to do what the unbounded one does.
 */
module LocalId {
  import opened Wrappers

  const GENERATIONS: nat := 16
  const FIRST_INDEX: U16 := 1
  const LAST_INDEX: U16 := 0xFFFF / 16 - 1
  const SLOTS: nat := LAST_INDEX + 1
  const CAPACITY: nat := LAST_INDEX - FIRST_INDEX + 1

  // ---------------------------------------------------------------- packed ids

  // A 16-bit left shift drops the bits that leave the word.
  function Compose(index: U16, generation: nat): (id: U16)
    ensures index <= LAST_INDEX ==> id / 16 == index && id % 16 == generation % 16
  {
    (index * 16) % 0x1_0000 + generation % GENERATIONS
  }

  function Split(id: U16): (U16, nat) { (id / GENERATIONS, id % GENERATIONS) }

  function Advance(index: U16): (next: U16)
    requires FIRST_INDEX <= index <= LAST_INDEX
    ensures FIRST_INDEX <= next <= LAST_INDEX
  {
    if index == LAST_INDEX then FIRST_INDEX else index + 1
  }

  // Packing is injective on the indices the allocator hands out, and never yields the two
  // ids the wire reserves.
  lemma ComposeRoundTrip(index: U16, generation: nat)
    requires FIRST_INDEX <= index <= LAST_INDEX
    ensures Split(Compose(index, generation)) == (index, generation % GENERATIONS)
    ensures Compose(index, generation) != 0 && Compose(index, generation) != 0xFFFF
  {
    assert Compose(index, generation) / 16 == index;
  }

  // ---------------------------------------------------------------- the unbounded allocator

  datatype IdState<G> = IdState(occupants: seq<Option<G>>, frees: seq<nat>, cursor: U16)

  ghost predicate WellFormed<G>(st: IdState<G>) {
    && |st.occupants| == |st.frees| == SLOTS
    && st.occupants[0].None?
    && FIRST_INDEX <= st.cursor <= LAST_INDEX
    && forall i, j :: 0 <= i < j < SLOTS && st.occupants[i].Some? ==> st.occupants[i] != st.occupants[j]
  }

  // How far the cursor has to travel to stand on `index`.
  function Distance(cursor: U16, index: U16): nat
    requires FIRST_INDEX <= cursor <= LAST_INDEX && FIRST_INDEX <= index <= LAST_INDEX
  {
    if cursor <= index then index - cursor else index - cursor + CAPACITY
  }

  ghost predicate Free<G>(st: IdState<G>, index: nat)
    requires WellFormed(st)
  {
    FIRST_INDEX <= index <= LAST_INDEX && st.occupants[index].None?
  }

  // The free slot the cursor reaches first.
  ghost predicate FirstFree<G>(st: IdState<G>, index: U16)
    requires WellFormed(st)
  {
    && Free(st, index)
    && forall j: U16 :: Free(st, j) ==> Distance(st.cursor, index) <= Distance(st.cursor, j)
  }

  // Every free slot lies ahead of `at` on the way from the cursor.
  ghost predicate Passed<G>(st: IdState<G>, at: U16)
    requires WellFormed(st)
  {
    && FIRST_INDEX <= at <= LAST_INDEX
    && forall j: U16 :: Free(st, j) ==> Distance(at, j) + Distance(st.cursor, at) == Distance(st.cursor, j)
  }

  lemma PassOver<G>(st: IdState<G>, at: U16, target: U16)
    requires WellFormed(st) && Passed(st, at) && !Free(st, at) && Free(st, target)
    ensures Passed(st, Advance(at)) && Distance(Advance(at), target) < Distance(at, target)
  {
    forall j: U16 | Free(st, j)
      ensures Distance(Advance(at), j) + Distance(st.cursor, Advance(at)) == Distance(st.cursor, j)
    {
      assert j != at && target != at;
      assert Distance(at, j) + Distance(st.cursor, at) == Distance(st.cursor, j);
    }
  }

  function Claimed<G>(st: IdState<G>, g: G, index: U16): IdState<G>
    requires WellFormed(st) && FIRST_INDEX <= index <= LAST_INDEX
  {
    st.(occupants := st.occupants[index := Some(g)], cursor := Advance(index))
  }

  ghost predicate Holds<G>(st: IdState<G>, g: G)
  {
    Some(g) in st.occupants
  }

  // An id is live while its slot has seen exactly as many frees as when it was issued.
  function Resolve<G>(st: IdState<G>, index: nat, issue: nat): Option<G>
    requires WellFormed(st)
  {
    if index < SLOTS && st.frees[index] == issue then st.occupants[index] else None
  }

  function Freed<G>(st: IdState<G>, index: nat, issue: nat): IdState<G>
    requires WellFormed(st)
  {
    if Resolve(st, index, issue).Some? then
      st.(occupants := st.occupants[index := None], frees := st.frees[index := issue + 1])
    else st
  }

  // ---------------------------------------------------------------- what the wire can tell

  // The wire id carries the count of frees modulo 16 only.
  function WireResolve<G>(st: IdState<G>, id: U16): Option<G>
    requires WellFormed(st)
  {
    var (index, generation) := Split(id);
    if index < SLOTS && st.frees[index] % GENERATIONS == generation then st.occupants[index] else None
  }

  function WireFreed<G>(st: IdState<G>, id: U16): IdState<G>
    requires WellFormed(st)
  {
    if WireResolve(st, id).Some? then
      var index := id / GENERATIONS;
      st.(occupants := st.occupants[index := None], frees := st.frees[index := st.frees[index] + 1])
    else st
  }

  // The wire agrees with the unbounded allocator exactly until the count comes round
  // again to an occupied slot.
  lemma WireAgreesIff<G>(st: IdState<G>, index: U16, issue: nat)
    requires WellFormed(st) && FIRST_INDEX <= index <= LAST_INDEX
    ensures WireResolve(st, Compose(index, issue)) == Resolve(st, index, issue)
            <==> (st.occupants[index].None? || st.frees[index] == issue
                  || st.frees[index] % GENERATIONS != issue % GENERATIONS)
    ensures issue <= st.frees[index] < issue + GENERATIONS
            ==> WireResolve(st, Compose(index, issue)) == Resolve(st, index, issue)
    ensures issue <= st.frees[index] < issue + GENERATIONS
            ==> WireFreed(st, Compose(index, issue)) == Freed(st, index, issue)
  {
    ComposeRoundTrip(index, issue);
  }

  // ---------------------------------------------------------------- runs

  datatype Op<G> = Request(global: G) | Release(id: U16)

  ghost predicate Next<G>(st: IdState<G>, op: Op<G>, st': IdState<G>)
    requires WellFormed(st)
  {
    match op
    case Request(g) =>
      if Holds(st, g) then st' == st
      else exists index: U16 :: FirstFree(st, index) && st' == Claimed(st, g, index)
    case Release(id) => st' == WireFreed(st, id)
  }

  lemma NextKeeps<G>(st: IdState<G>, op: Op<G>, st': IdState<G>)
    requires WellFormed(st) && Next(st, op, st')
    ensures WellFormed(st')
    ensures forall i :: 0 <= i < SLOTS ==> st.frees[i] <= st'.frees[i]
    ensures forall i :: 0 <= i < SLOTS && st.frees[i] == st'.frees[i] && st.occupants[i].Some?
              ==> st'.occupants[i] == st.occupants[i]
  {
    if op.Request? && !Holds(st, op.global) {
      var index: U16 :| FirstFree(st, index) && st' == Claimed(st, op.global, index);
      forall i, j | 0 <= i < j < SLOTS && st'.occupants[i].Some?
        ensures st'.occupants[i] != st'.occupants[j]
      {
        assert i != index ==> st.occupants[i] in st.occupants;
        assert j != index ==> st.occupants[j] in st.occupants;
      }
    }
  }

  ghost predicate IsRun<G>(states: seq<IdState<G>>, ops: seq<Op<G>>)
  {
    && |states| == |ops| + 1
    && WellFormed(states[0])
    && forall k :: 0 <= k < |ops| ==> WellFormed(states[k]) && Next(states[k], ops[k], states[k + 1])
  }

  lemma {:induction false} RunKeeps<G>(states: seq<IdState<G>>, ops: seq<Op<G>>, k: nat, i: nat)
    requires IsRun(states, ops) && k <= |ops| && i < SLOTS
    ensures WellFormed(states[k])
    ensures states[0].frees[i] <= states[k].frees[i]
    ensures states[0].frees[i] == states[k].frees[i] && states[0].occupants[i].Some?
            ==> states[k].occupants[i] == states[0].occupants[i]
  {
    if k > 0 {
      RunKeeps(states, ops, k - 1, i);
      assert Next(states[k - 1], ops[k - 1], states[k]);
      NextKeeps(states[k - 1], ops[k - 1], states[k]);
    }
  }

  // Issue an id for `g`, then let anything happen. Until its slot is freed the id names `g`;
  // for the next fifteen frees it names nothing, freeing by it does nothing, and no id
  // minted for the slot equals it - whoever holds the slot by then.
  lemma StaleIdsNeverResolve<G>(states: seq<IdState<G>>, ops: seq<Op<G>>, g: G, index: U16, k: nat)
    requires IsRun(states, ops) && k <= |ops|
    requires FIRST_INDEX <= index <= LAST_INDEX && states[0].occupants[index] == Some(g)
    ensures WellFormed(states[k])
    ensures var id := Compose(index, states[0].frees[index]);
            var (n, m) := (states[0].frees[index], states[k].frees[index]);
            && n <= m
            && (m == n ==> WireResolve(states[k], id) == Some(g))
            && (n < m < n + GENERATIONS ==>
                  && WireResolve(states[k], id) == None
                  && WireFreed(states[k], id) == states[k]
                  && Compose(index, m) != id)
  {
    RunKeeps(states, ops, k, index);
    WireAgreesIff(states[k], index, states[0].frees[index]);
    ComposeRoundTrip(index, states[0].frees[index]);
    ComposeRoundTrip(index, states[k].frees[index]);
  }

  // ---------------------------------------------------------------- a free slot exists

  ghost function Names<G>(st: IdState<G>, k: nat): set<G>
    requires WellFormed(st) && k <= LAST_INDEX
    requires forall i :: FIRST_INDEX <= i <= k ==> st.occupants[i].Some?
  {
    set i | FIRST_INDEX <= i <= k :: st.occupants[i].value
  }

  lemma {:induction false} NamesAreDistinct<G>(st: IdState<G>, k: nat)
    requires WellFormed(st) && k <= LAST_INDEX
    requires forall i :: FIRST_INDEX <= i <= k ==> st.occupants[i].Some?
    ensures |Names(st, k)| == k
  {
    if k > 0 {
      NamesAreDistinct(st, k - 1);
      assert st.occupants[k].value !in Names(st, k - 1);
      assert Names(st, k) == Names(st, k - 1) + {st.occupants[k].value};
    }
  }

  lemma SubsetSize<T>(a: set<T>, b: set<T>)
    requires a <= b
    ensures |a| <= |b|
  {
    assert b == a + (b - a);
  }

  // Pigeonhole: the names held are distinct, so fewer than CAPACITY of them leave a slot free.
  lemma SomeSlotIsFree<G>(st: IdState<G>, held: set<G>) returns (index: U16)
    requires WellFormed(st) && |held| < CAPACITY
    requires forall i :: 0 <= i < SLOTS && st.occupants[i].Some? ==> st.occupants[i].value in held
    ensures Free(st, index)
  {
    if i: U16 :| Free(st, i) {
      index := i;
    } else {
      forall i | FIRST_INDEX <= i <= LAST_INDEX ensures st.occupants[i].Some? {
        var j: U16 := i;
        assert !Free(st, j);
      }
      NamesAreDistinct(st, LAST_INDEX);
      SubsetSize(Names(st, LAST_INDEX), held);
      assert false;
    }
  }

  // ---------------------------------------------------------------- the allocator as it is

  datatype Slot<G> = Slot(generation: nat, occupant: Option<G>)

  // Slots not yet created count as empty and never freed.
  ghost function Abstract<G>(slots: seq<Slot<G>>, frees: seq<nat>, cursor: U16): IdState<G> {
    IdState(seq(SLOTS, i requires 0 <= i => if i < |slots| then slots[i].occupant else None), frees, cursor)
  }

  ghost predicate Counted<G>(slots: seq<Slot<G>>, frees: seq<nat>) {
    && 1 <= |slots| <= SLOTS && |frees| == SLOTS
    && slots[0].occupant.None?
    && (forall i :: 0 <= i < |slots| ==> slots[i].generation == frees[i] % GENERATIONS)
    && (forall i :: |slots| <= i < SLOTS ==> frees[i] == 0)
  }

  // The reverse map and the occupied slots are mutual inverses.
  ghost predicate Inverse<G>(ids: map<G, U16>, slots: seq<Slot<G>>) {
    && (forall g :: g in ids ==>
          var (index, generation) := Split(ids[g]);
          index < |slots| && slots[index] == Slot(generation, Some(g)))
    && (forall i :: 0 <= i < |slots| && slots[i].occupant.Some? ==>
          slots[i].occupant.value in ids && Split(ids[slots[i].occupant.value]).0 == i)
  }

  lemma InverseIsWellFormed<G>(ids: map<G, U16>, slots: seq<Slot<G>>, frees: seq<nat>, cursor: U16)
    requires Counted(slots, frees) && Inverse(ids, slots) && FIRST_INDEX <= cursor <= LAST_INDEX
    ensures WellFormed(Abstract(slots, frees, cursor))
    ensures forall g :: Holds(Abstract(slots, frees, cursor), g) <==> g in ids
  {
    var st := Abstract(slots, frees, cursor);
    forall g | g in ids ensures Holds(st, g) {
      assert st.occupants[Split(ids[g]).0] == Some(g);
    }
  }

  lemma ClaimKeepsInverse<G>(ids: map<G, U16>, slots: seq<Slot<G>>, g: G, index: U16)
    requires Inverse(ids, slots) && g !in ids
    requires FIRST_INDEX <= index < |slots| <= SLOTS
    requires slots[index].occupant.None? && slots[index].generation < GENERATIONS
    ensures Inverse(ids[g := Compose(index, slots[index].generation)],
                    slots[index := slots[index].(occupant := Some(g))])
  {
    ComposeRoundTrip(index, slots[index].generation);
  }

  lemma ReleaseKeepsInverse<G>(ids: map<G, U16>, slots: seq<Slot<G>>, index: nat, slot: Slot<G>)
    requires Inverse(ids, slots) && index < |slots| && slots[index].occupant.Some? && slot.occupant.None?
    ensures Inverse(ids - {slots[index].occupant.value}, slots[index := slot])
  {
  }

  // A slot freed once more, as the unbounded allocator sees it.
  ghost function Vacated<G>(st: IdState<G>, index: nat): IdState<G>
    requires WellFormed(st) && index < SLOTS
  {
    st.(occupants := st.occupants[index := None], frees := st.frees[index := st.frees[index] + 1])
  }

  lemma ReleaseVacates<G>(slots: seq<Slot<G>>, frees: seq<nat>, cursor: U16, index: nat)
    requires Counted(slots, frees) && WellFormed(Abstract(slots, frees, cursor)) && index < |slots|
    ensures var (slots', frees') := (slots[index := Slot((slots[index].generation + 1) % GENERATIONS, None)],
                                     frees[index := frees[index] + 1]);
            && Counted(slots', frees')
            && Abstract(slots', frees', cursor) == Vacated(Abstract(slots, frees, cursor), index)
  {
    OneMoreFree(frees[index]);
  }

  lemma VacatingKeeps<G>(ids: map<G, U16>, slots: seq<Slot<G>>, frees: seq<nat>, cursor: U16, index: nat,
                         vacant: Slot<G>)
    requires Counted(slots, frees) && Inverse(ids, slots) && FIRST_INDEX <= cursor <= LAST_INDEX
    requires WellFormed(Abstract(slots, frees, cursor)) && index < |slots| && slots[index].occupant.Some?
    requires vacant == Slot((slots[index].generation + 1) % GENERATIONS, None)
    ensures var (ids', slots', frees') := (ids - {slots[index].occupant.value}, slots[index := vacant],
                                           frees[index := frees[index] + 1]);
            && Counted(slots', frees') && Inverse(ids', slots') && WellFormed(Abstract(slots', frees', cursor))
            && Abstract(slots', frees', cursor) == Vacated(Abstract(slots, frees, cursor), index)
  {
    ReleaseKeepsInverse(ids, slots, index, vacant);
    ReleaseVacates(slots, frees, cursor, index);
    InverseIsWellFormed(ids - {slots[index].occupant.value}, slots[index := vacant], frees[index := frees[index] + 1],
                        cursor);
  }

  lemma OneMoreFree(n: nat)
    ensures (n + 1) % GENERATIONS == (n % GENERATIONS + 1) % GENERATIONS
  {
  }

  // What the wire frees is the slot whose id it is given, when that is the slot's current id.
  lemma FreedWhere<G>(slots: seq<Slot<G>>, frees: seq<nat>, cursor: U16, id: U16)
    requires Counted(slots, frees) && WellFormed(Abstract(slots, frees, cursor))
    ensures var ((index, generation), st) := (Split(id), Abstract(slots, frees, cursor));
            WireFreed(st, id)
            == if index < |slots| && slots[index].generation == generation && slots[index].occupant.Some?
               then Vacated(st, index) else st
  {
    UnresolvedWhere(slots, frees, cursor, id);
  }

  lemma UnresolvedWhere<G>(slots: seq<Slot<G>>, frees: seq<nat>, cursor: U16, id: U16)
    requires Counted(slots, frees) && WellFormed(Abstract(slots, frees, cursor))
    ensures var (index, generation) := Split(id);
            WireResolve(Abstract(slots, frees, cursor), id)
            == if index < |slots| && slots[index].generation == generation then slots[index].occupant else None
  {
  }

  // The id recorded for a global resolves to it, and is not one the wire reserves.
  lemma RecordedResolves<G>(ids: map<G, U16>, slots: seq<Slot<G>>, frees: seq<nat>, cursor: U16, g: G)
    requires Counted(slots, frees) && Inverse(ids, slots) && WellFormed(Abstract(slots, frees, cursor)) && g in ids
    ensures WireResolve(Abstract(slots, frees, cursor), ids[g]) == Some(g)
    ensures ids[g] != 0 && ids[g] != 0xFFFF
  {
    UnresolvedWhere(slots, frees, cursor, ids[g]);
    ReservedIds(ids[g]);
  }

  lemma ReservedIds(id: U16)
    ensures id == 0 ==> Split(id).0 == 0
    ensures id == 0xFFFF ==> Split(id).0 == SLOTS
  {
  }

  // Occupying a free slot, seen from the unbounded allocator.
  lemma OccupyingIsClaiming<G>(slots: seq<Slot<G>>, frees: seq<nat>, cursor: U16, g: G, index: U16)
    requires Counted(slots, frees) && FIRST_INDEX <= index < |slots|
    ensures var slots' := slots[index := slots[index].(occupant := Some(g))];
            && Counted(slots', frees)
            && Abstract(slots', frees, cursor).occupants == Abstract(slots, frees, cursor).occupants[index := Some(g)]
  {
  }

  lemma GrowthIsInvisible<G>(ids: map<G, U16>, slots: seq<Slot<G>>, frees: seq<nat>, index: U16)
    requires Counted(slots, frees) && Inverse(ids, slots) && |slots| <= index <= LAST_INDEX
    ensures var slots' := slots + seq(index + 1 - |slots|, i => Slot(0, None));
            && Counted(slots', frees) && Inverse(ids, slots')
            && forall cursor :: Abstract(slots', frees, cursor) == Abstract(slots, frees, cursor)
  {
  }

  class LocalIdMap<G(==)> {
    var globalToLocal: map<G, U16>
    var slots: seq<Slot<G>>
    var nextIndex: U16
    // How often each slot has been freed; the code keeps it modulo 16.
    ghost var frees: seq<nat>

    ghost predicate Valid()
      reads this
    {
      && Counted(slots, frees)
      && Inverse(globalToLocal, slots)
      && FIRST_INDEX <= nextIndex <= LAST_INDEX
      && WellFormed(State())
    }

    ghost function State(): IdState<G>
      reads this
    {
      Abstract(slots, frees, nextIndex)
    }

    constructor ()
      ensures Valid()
      ensures State() == IdState(seq(SLOTS, i => None), seq(SLOTS, i => 0), FIRST_INDEX)
    {
      globalToLocal := map[];
      slots := [Slot(0, None)];
      nextIndex := FIRST_INDEX;
      frees := seq(SLOTS, i => 0);
    }

    method GetOrInsert(g: G) returns (id: U16)
      requires Valid()
      // the source panics when the session has used up its ids
      requires g in globalToLocal || |globalToLocal| < CAPACITY
      modifies this
      ensures Valid() && id != 0 && id != 0xFFFF
      ensures WireResolve(State(), id) == Some(g)
      ensures Holds(old(State()), g) ==> State() == old(State())
      ensures !Holds(old(State()), g) ==>
                exists index: U16 ::
                  && FirstFree(old(State()), index)
                  && State() == Claimed(old(State()), g, index)
                  && id == Compose(index, frees[index])
    {
      InverseIsWellFormed(globalToLocal, slots, frees, nextIndex);
      if g !in globalToLocal {
        var index := ClaimIndex();
        Occupy(g, index);
        assert State() == Claimed(old(State()), g, index);
      }
      id := globalToLocal[g];
      RecordedResolves(globalToLocal, slots, frees, nextIndex, g);
    }

    method Occupy(g: G, index: U16)
      requires Valid() && g !in globalToLocal
      requires FIRST_INDEX <= index < |slots| && slots[index].occupant.None?
      modifies this`slots, this`globalToLocal
      ensures Valid() && g in globalToLocal && globalToLocal[g] == Compose(index, frees[index])
      ensures State() == old(State()).(occupants := old(State()).occupants[index := Some(g)])
    {
      var slot := slots[index];
      ClaimKeepsInverse(globalToLocal, slots, g, index);
      OccupyingIsClaiming(slots, frees, nextIndex, g, index);
      slots := slots[index := slot.(occupant := Some(g))];
      globalToLocal := globalToLocal[g := Compose(index, slot.generation)];
      InverseIsWellFormed(globalToLocal, slots, frees, nextIndex);
    }

    // The cursor stops at the first free slot in its cyclic order, creating it if need be.
    method ClaimIndex() returns (index: U16)
      requires Valid() && |globalToLocal| < CAPACITY
      modifies this`slots, this`nextIndex
      ensures Valid() && FirstFree(old(State()), index) && index < |slots|
      ensures State() == old(State()).(cursor := Advance(index))
    {
      ghost var start := State();
      ghost var target := SomeSlotIsFree(start, globalToLocal.Keys);
      while true
        invariant slots == old(slots) && Passed(start, nextIndex)
        decreases Distance(nextIndex, target)
      {
        index := nextIndex;
        nextIndex := Advance(nextIndex);
        if index >= |slots| {
          Grow(index);
          return;
        }
        if slots[index].occupant.None? {
          return;
        }
        PassOver(start, index, target);
      }
    }

    method Grow(index: U16)
      requires Valid() && |slots| <= index <= LAST_INDEX
      modifies this`slots
      ensures Valid() && State() == old(State())
      ensures |slots| == index + 1 && slots[index].occupant.None?
    {
      GrowthIsInvisible(globalToLocal, slots, frees, index);
      slots := slots + seq(index + 1 - |slots|, i => Slot(0, None));
    }

    method RemoveByLocal(id: U16)
      requires Valid()
      modifies this
      ensures Valid() && State() == WireFreed(old(State()), id)
    {
      FreedWhere(slots, frees, nextIndex, id);
      var (index, generation) := Split(id);
      if index >= |slots| || slots[index].generation != generation || slots[index].occupant.None? {
        return;
      }
      Vacate(index);
    }

    method Vacate(index: nat)
      requires Valid() && index < |slots| && slots[index].occupant.Some?
      modifies this`slots, this`globalToLocal, this`frees
      ensures Valid() && State() == Vacated(old(State()), index)
    {
      var slot := slots[index];
      var vacant := Slot((slot.generation + 1) % GENERATIONS, None);
      VacatingKeeps(globalToLocal, slots, frees, nextIndex, index, vacant);
      globalToLocal := globalToLocal - {slot.occupant.value};
      slots := slots[index := vacant];
      frees := frees[index := frees[index] + 1];
    }

    method GetGlobal(id: U16) returns (g: Option<G>)
      requires Valid()
      ensures g == WireResolve(State(), id)
    {
      var (index, generation) := Split(id);
      if index >= |slots| { return None; }
      if slots[index].generation != generation { return None; }
      return slots[index].occupant;
    }

    // The one id that resolves to `g`, if any does.
    method GetLocal(g: G) returns (id: Option<U16>)
      requires Valid()
      ensures forall other: U16 :: WireResolve(State(), other) == Some(g) <==> id == Some(other)
    {
      id := if g in globalToLocal then Some(globalToLocal[g]) else None;
    }
  }
}
