/**
 The combat pass of a tick: every agent with a target drops it if it can no longer be
 reached, and attacks it otherwise. Agents die and leave the map while the pass goes over a
 list of agents made before.

 What each step does to the world is a function from one field to the next; the laws are
 proved about those functions.
 */
module Battle {
  import opened Wrappers
  import opened Positions
  import opened Items
  import opened Inventories
  import opened GameMaps
  import opened Ledgers
  import opened Scenes
  import opened Participation
  import opened Skills
  import opened Blood
  import Loot
  import World

  // `blood` is the pool a physical wound leaves on the ground.
  datatype CombatDamage = CombatDamage(value: U32, blockedShield: bool, blockedArmor: bool, blood: Option<Item>)

  // An arrow or bolt comes out of the quiver in the right hand; splitting the stack takes a
  // name for the piece.
  datatype AttackCost = Free | Ammunition(guid: Guid, newName: Guid)

  datatype AttackPlan = AttackPlan(
    attacker: AgentKey,
    damage: seq<(AgentKey, CombatDamage)>,
    cost: AttackCost,
    missile: bool,
    missed: bool)

  // The part of the world combat touches.
  datatype Field = Field(tiles: Tiles, agents: Agents, places: Where, scheduled: World.Scheduled)

  // The corpse of a creature, and what it carried.
  datatype Remains = Remains(corpse: Item, rolls: seq<Loot.Roll>, names: nat -> Loot.Names)

  function CorpseOf(r: Remains): Item { Loot.Looted(r.corpse, r.rolls, r.names, 0) }

  // Chance, and the tables it is rolled against: the attack an agent decides on when its turn
  // comes (it has one turn a pass), and what is left of a creature that dies.
  datatype Fortune = Fortune(attack: AgentKey -> Option<AttackPlan>, remains: AgentKey -> Option<Remains>)

  predicate AllOnTiles(f: Field) {
    f.agents.Keys == f.places.Keys && forall k :: k in f.places ==> f.places[k] in f.tiles
  }

  // ---------------------------------------------------------------- targets

  function Untargeting(a: Agent): Agent { a.(target := None, targetSeq := 0) }

  // A target must be another agent of the map; anything else clears the target.
  function Targeted(agents: Agents, k: AgentKey, target: Option<AgentKey>, seqNo: U32): Agents {
    if k !in agents then agents
    else if target.Some? && target.value != k && target.value in agents
    then agents[k := agents[k].(target := target, targetSeq := seqNo)]
    else agents[k := Untargeting(agents[k])]
  }

  // Nobody is their own target, and without a target there is no request it came from.
  ghost predicate Aimed(agents: Agents) {
    forall k :: k in agents ==>
      agents[k].target != Some(k) && (agents[k].target.None? ==> agents[k].targetSeq == 0)
  }

  // The target after a request is the one asked for, numbered with the request, exactly when
  // that is somebody else on the map; otherwise there is none. Nobody else's target changes.
  lemma RequestedTarget(agents: Agents, k: AgentKey, target: Option<AgentKey>, seqNo: U32)
    requires k in agents
    ensures var after := Targeted(agents, k, target, seqNo);
            && after.Keys == agents.Keys
            && (after[k].target, after[k].targetSeq)
               == (if target.Some? && target.value in agents && target.value != k then (target, seqNo) else (None, 0))
            && after[k] == agents[k].(target := after[k].target, targetSeq := after[k].targetSeq)
            && (forall j :: j in agents && j != k ==> after[j] == agents[j])
            && (Aimed(agents) ==> Aimed(after))
  {
  }

  predicate CanReach(f: Field, k: AgentKey, target: AgentKey)
    requires k in f.places
  {
    target in f.agents && target in f.places && CanTarget(f.places[k], f.places[target])
  }

  predicate MustDrop(f: Field, k: AgentKey) {
    k in f.agents && f.agents[k].target.Some? && k in f.places && !CanReach(f, k, f.agents[k].target.value)
  }

  // A target held is on the map, on the same floor, at most nine tiles to the side and seven up
  // or down.
  ghost predicate TargetStands(f: Field, k: AgentKey)
    requires k in f.agents && k in f.places
  {
    f.agents[k].target.Some? ==>
      var target := f.agents[k].target.value;
      && target in f.agents && target in f.places && f.places[target].z == f.places[k].z
      && -9 <= f.places[target].x - f.places[k].x <= 9 && -7 <= f.places[target].y - f.places[k].y <= 7
  }

  // The targets dropped are those that do not stand so.
  lemma DropsWhoIsOutOfReach(f: Field, k: AgentKey)
    ensures MustDrop(f, k) <==> k in f.agents && k in f.places && !TargetStands(f, k)
  {
  }

  function Dropped(f: Field, k: AgentKey): Field {
    if MustDrop(f, k) then f.(agents := f.agents[k := Untargeting(f.agents[k])]) else f
  }

  // ---------------------------------------------------------------- damage and death

  // A player always keeps one point of life.
  function Survivable(a: Agent): U32 {
    if a.inner.Creature? then a.life else SaturatingSub(a.life, 1)
  }

  function Struck(a: Agent, value: U32, source: Option<AgentKey>): Agent
    requires value <= a.life
  {
    a.(life := a.life - value,
       participation := if a.inner.Creature? && source.Some? then Recorded(a.participation, source.value, value)
                        else a.participation)
  }

  predicate Payable(shares: seq<(AgentKey, nat)>) {
    forall i :: 0 <= i < |shares| ==> shares[i].1 <= U64_MAX
  }

  lemma PayableTail(shares: seq<(AgentKey, nat)>)
    requires Payable(shares) && shares != []
    ensures Payable(shares[1..])
  {
    forall i | 0 <= i < |shares| - 1 ensures shares[1..][i].1 <= U64_MAX { assert shares[1..][i] == shares[i + 1]; }
  }

  function Awarded(agents: Agents, k: AgentKey, ticks: U64): Agents {
    if HasLevel(agents, k) then agents[k := Levelled(agents[k], ticks)] else agents
  }

  predicate HasLevel(agents: Agents, k: AgentKey) { IsPlayerOf(agents, k) && agents[k].inner.level.Some? }

  function Levelled(a: Agent, ticks: U64): Agent
    requires a.inner.Player? && a.inner.level.Some?
  {
    a.(inner := a.inner.(level := Some(Advanced(a.inner.level.value, ticks, LevelCurve()).0)))
  }

  function AwardedAll(agents: Agents, shares: seq<(AgentKey, nat)>): Agents
    requires Payable(shares)
  {
    if shares == [] then agents
    else
      PayableTail(shares);
      AwardedAll(Awarded(agents, shares[0].0, shares[0].1), shares[1..])
  }

  function Untargeted(agents: Agents, k: AgentKey): Agents {
    map j | j in agents :: if agents[j].target == Some(k) then Untargeting(agents[j]) else agents[j]
  }

  function Respawn(dead: Agent, tick: nat): World.Scheduled
    requires dead.inner.Creature?
  {
    if dead.inner.respawnTicks.None? then []
    else [World.ScheduledCommand(tick + dead.inner.respawnTicks.value,
                                 World.SpawnCreature(dead.inner.origin, dead.inner.respawnTicks))]
  }

  lemma SharesArePayable(t: Table, pool: U32)
    ensures Payable(Shares(t, pool))
  {
    SharesNeverExceedThePool(t, pool);
    forall i | 0 <= i < |Shares(t, pool)| ensures Shares(t, pool)[i].1 <= U64_MAX {
      EachIsInTheSum(Shares(t, pool), i);
    }
  }

  lemma {:induction false} EachIsInTheSum(shares: seq<(AgentKey, nat)>, i: nat)
    requires i < |shares|
    ensures shares[i].1 <= Sum(shares)
  {
    if i > 0 { EachIsInTheSum(shares[1..], i - 1); }
  }

  // The dead creature's experience is handed out, nobody targets it any more, it leaves its
  // tile to a corpse, and its replacement is booked.
  function Reaped(f: Field, k: AgentKey, tick: nat, fortune: Fortune): Field
    requires AllOnTiles(f) && k in f.agents && f.agents[k].inner.Creature?
  {
    var dead, at := f.agents[k], f.places[k];
    SharesArePayable(dead.participation, dead.inner.experience);
    var left := Unseat(f.tiles, at, k);
    var remains := fortune.remains(k);
    Field(if remains.Some? then WithOneMore(left, at, None, CorpseOf(remains.value)) else left,
          Untargeted(AwardedAll(f.agents, Shares(dead.participation, dead.inner.experience)), k) - {k},
          f.places - {k},
          f.scheduled + Respawn(dead, tick))
  }

  function Hit(f: Field, target: AgentKey, damage: CombatDamage, source: Option<AgentKey>, tick: nat, fortune: Fortune)
    : Field
    requires AllOnTiles(f)
  {
    if target !in f.agents then f
    else
      var applied := Min(damage.value, Survivable(f.agents[target]));
      if applied == 0 then f
      else
        var hit := Wounded(f, target, applied, source, damage.blood, tick);
        if hit.agents[target].life == 0 then Reaped(hit, target, tick, fortune) else hit
  }

  function Wounded(f: Field, target: AgentKey, value: U32, source: Option<AgentKey>, blood: Option<Item>, tick: nat)
    : (g: Field)
    requires AllOnTiles(f) && target in f.agents && value <= f.agents[target].life
    ensures AllOnTiles(g) && g.agents == f.agents[target := Struck(f.agents[target], value, source)]
  {
    Bled(f.(agents := f.agents[target := Struck(f.agents[target], value, source)]), f.places[target], blood, tick)
  }

  // ---------------------------------------------------------------- blood

  function Drying(pool: Item, at: Position, tick: nat): World.Scheduled {
    if pool.config.decay.None? then []
    else [World.ScheduledCommand(tick + pool.config.decay.value, World.DecayItem(pool.guid, OnMap(at)))]
  }

  function Bled(f: Field, at: Position, blood: Option<Item>, tick: nat): Field
    requires at in f.tiles
  {
    if blood.None? then f
    else f.(tiles := WithItems(f.tiles, at, BloodOn(f.tiles[at].items, blood.value)),
            scheduled := f.scheduled + Drying(blood.value, at, tick))
  }

  // ---------------------------------------------------------------- attacks and the pass

  function HitAll(f: Field, damage: seq<(AgentKey, CombatDamage)>, source: AgentKey, tick: nat, fortune: Fortune)
    : (r: Field)
    requires AllOnTiles(f)
    decreases damage
  {
    if damage == [] then f
    else
      HitThins(f, damage[0].0, damage[0].1, Some(source), tick, fortune);
      HitAll(Hit(f, damage[0].0, damage[0].1, Some(source), tick, fortune), damage[1..], source, tick, fortune)
  }

  predicate CanSpend(agents: Agents, k: AgentKey, cost: AttackCost) {
    cost.Ammunition? && IsPlayerOf(agents, k) && CanDraw(BagOf(agents, k), RightHand, cost.guid, 1, cost.newName)
  }

  function Spent(agents: Agents, k: AgentKey, cost: AttackCost): Agents {
    if CanSpend(agents, k, cost)
    then WithBag(agents, k, Drawn(BagOf(agents, k), RightHand, cost.guid, 1, cost.newName))
    else agents
  }

  // The shot is paid for whether or not it hits.
  function Attacked(f: Field, plan: AttackPlan, tick: nat, fortune: Fortune): Field
    requires AllOnTiles(f)
  {
    var paid := f.(agents := Spent(f.agents, plan.attacker, plan.cost));
    if plan.missile && plan.missed then paid else HitAll(paid, plan.damage, plan.attacker, tick, fortune)
  }

  // Agents that are gone, or have no target that stands anywhere, attack nothing.
  function PlanOf(f: Field, k: AgentKey, fortune: Fortune): Option<AttackPlan> {
    if k !in f.agents || k !in f.places || f.agents[k].target.None? || f.agents[k].target.value !in f.places then None
    else fortune.attack(k)
  }

  function Turn(f: Field, k: AgentKey, tick: nat, fortune: Fortune): Field
    requires AllOnTiles(f)
  {
    if MustDrop(f, k) then Dropped(f, k)
    else match PlanOf(f, k, fortune)
      case None => f
      case Some(plan) => Attacked(f, plan, tick, fortune)
  }

  function Pass(f: Field, keys: seq<AgentKey>, tick: nat, fortune: Fortune): Field
    requires AllOnTiles(f)
    decreases keys
  {
    if keys == [] then f
    else
      TurnThins(f, keys[0], tick, fortune);
      Pass(Turn(f, keys[0], tick, fortune), keys[1..], tick, fortune)
  }

  // ---------------------------------------------------------------- what a step leaves standing

  // Some agents may be gone and some targets with them; who is still there stands where it
  // stood, and targets whom it targeted, if that one is still there, or nobody.
  ghost predicate Thinned(f: Field, g: Field)
    requires AllOnTiles(f)
  {
    && AllOnTiles(g) && f.tiles.Keys <= g.tiles.Keys
    && (forall k :: k in g.agents ==>
          && k in f.agents && g.places[k] == f.places[k]
          && (|| (g.agents[k].target == f.agents[k].target && g.agents[k].targetSeq == f.agents[k].targetSeq)
              || (g.agents[k].target.None? && g.agents[k].targetSeq == 0))
          && (g.agents[k].target.Some? && g.agents[k].target.value in f.agents ==>
                g.agents[k].target.value in g.agents))
  }

  lemma ThinnedTwice(f: Field, g: Field, h: Field)
    requires AllOnTiles(f) && Thinned(f, g) && Thinned(g, h)
    ensures Thinned(f, h)
  {
  }

  lemma {:induction false} AwardsKeepTargets(agents: Agents, shares: seq<(AgentKey, nat)>)
    requires Payable(shares)
    ensures AwardedAll(agents, shares).Keys == agents.Keys
    ensures forall k :: k in agents ==>
              && AwardedAll(agents, shares)[k].target == agents[k].target
              && AwardedAll(agents, shares)[k].targetSeq == agents[k].targetSeq
              && AwardedAll(agents, shares)[k].life == agents[k].life
              && (agents[k].inner.Creature? ==> AwardedAll(agents, shares)[k] == agents[k])
    decreases shares
  {
    if shares != [] {
      PayableTail(shares);
      AwardsKeepTargets(Awarded(agents, shares[0].0, shares[0].1), shares[1..]);
    }
  }

  lemma ReapedThins(f: Field, k: AgentKey, tick: nat, fortune: Fortune)
    requires AllOnTiles(f) && k in f.agents && f.agents[k].inner.Creature?
    ensures Thinned(f, Reaped(f, k, tick, fortune))
    ensures Reaped(f, k, tick, fortune).agents.Keys == f.agents.Keys - {k}
    ensures forall j :: j in Reaped(f, k, tick, fortune).agents ==>
              Reaped(f, k, tick, fortune).agents[j].life == f.agents[j].life
  {
    var dead := f.agents[k];
    SharesArePayable(dead.participation, dead.inner.experience);
    AwardsKeepTargets(f.agents, Shares(dead.participation, dead.inner.experience));
  }

  lemma WoundThins(f: Field, target: AgentKey, value: U32, source: Option<AgentKey>, blood: Option<Item>, tick: nat)
    requires AllOnTiles(f) && target in f.agents && value <= f.agents[target].life
    ensures Thinned(f, Wounded(f, target, value, source, blood, tick))
  {
  }

  lemma HitThins(f: Field, target: AgentKey, damage: CombatDamage, source: Option<AgentKey>, tick: nat,
                 fortune: Fortune)
    requires AllOnTiles(f)
    ensures Thinned(f, Hit(f, target, damage, source, tick, fortune))
  {
    if target in f.agents {
      var applied := Min(damage.value, Survivable(f.agents[target]));
      if applied > 0 {
        var hit := Wounded(f, target, applied, source, damage.blood, tick);
        WoundThins(f, target, applied, source, damage.blood, tick);
        if hit.agents[target].life == 0 {
          ReapedThins(hit, target, tick, fortune);
          ThinnedTwice(f, hit, Reaped(hit, target, tick, fortune));
        }
      }
    }
  }

  lemma {:induction false} HitAllThins(f: Field, damage: seq<(AgentKey, CombatDamage)>, source: AgentKey, tick: nat,
                                       fortune: Fortune)
    requires AllOnTiles(f)
    ensures Thinned(f, HitAll(f, damage, source, tick, fortune))
    decreases damage
  {
    if damage != [] {
      var g := Hit(f, damage[0].0, damage[0].1, Some(source), tick, fortune);
      HitThins(f, damage[0].0, damage[0].1, Some(source), tick, fortune);
      HitAllThins(g, damage[1..], source, tick, fortune);
      ThinnedTwice(f, g, HitAll(f, damage, source, tick, fortune));
    }
  }

  lemma PayingThins(f: Field, k: AgentKey, cost: AttackCost)
    requires AllOnTiles(f)
    ensures var paid := f.(agents := Spent(f.agents, k, cost));
            && Thinned(f, paid) && paid.agents.Keys == f.agents.Keys
            && forall j :: j in f.agents ==> paid.agents[j].life == f.agents[j].life
  {
  }

  lemma AttackedThins(f: Field, plan: AttackPlan, tick: nat, fortune: Fortune)
    requires AllOnTiles(f)
    ensures Thinned(f, Attacked(f, plan, tick, fortune))
  {
    var paid := f.(agents := Spent(f.agents, plan.attacker, plan.cost));
    PayingThins(f, plan.attacker, plan.cost);
    if !(plan.missile && plan.missed) {
      HitAllThins(paid, plan.damage, plan.attacker, tick, fortune);
      ThinnedTwice(f, paid, Attacked(f, plan, tick, fortune));
    }
  }

  lemma TurnThins(f: Field, k: AgentKey, tick: nat, fortune: Fortune)
    requires AllOnTiles(f)
    ensures Thinned(f, Turn(f, k, tick, fortune))
  {
    var plan := PlanOf(f, k, fortune);
    if !MustDrop(f, k) && plan.Some? { AttackedThins(f, plan.value, tick, fortune); }
  }

  // ---------------------------------------------------------------- after the pass

  ghost predicate Alive(f: Field) {
    forall k :: k in f.agents ==> f.agents[k].life >= 1
  }

  lemma ThinningKeepsTargets(f: Field, g: Field, k: AgentKey)
    requires AllOnTiles(f) && Thinned(f, g) && k in g.agents && TargetStands(f, k)
    ensures TargetStands(g, k)
  {
  }

  lemma ThinningKeepsAim(f: Field, g: Field)
    requires AllOnTiles(f) && Thinned(f, g) && Aimed(f.agents)
    ensures Aimed(g.agents)
  {
  }

  lemma HitKeepsAlive(f: Field, target: AgentKey, damage: CombatDamage, source: Option<AgentKey>, tick: nat,
                      fortune: Fortune)
    requires AllOnTiles(f) && Alive(f)
    ensures Alive(Hit(f, target, damage, source, tick, fortune))
  {
    if target in f.agents {
      var applied := Min(damage.value, Survivable(f.agents[target]));
      if applied > 0 {
        var hit := Wounded(f, target, applied, source, damage.blood, tick);
        if hit.agents[target].life == 0 { ReapedThins(hit, target, tick, fortune); }
      }
    }
  }

  lemma {:induction false} HitAllKeepsAlive(f: Field, damage: seq<(AgentKey, CombatDamage)>, source: AgentKey,
                                            tick: nat, fortune: Fortune)
    requires AllOnTiles(f) && Alive(f)
    ensures Alive(HitAll(f, damage, source, tick, fortune))
    decreases damage
  {
    if damage != [] {
      HitThins(f, damage[0].0, damage[0].1, Some(source), tick, fortune);
      HitKeepsAlive(f, damage[0].0, damage[0].1, Some(source), tick, fortune);
      HitAllKeepsAlive(Hit(f, damage[0].0, damage[0].1, Some(source), tick, fortune), damage[1..], source, tick,
                       fortune);
    }
  }

  lemma AttackedKeepsAlive(f: Field, plan: AttackPlan, tick: nat, fortune: Fortune)
    requires AllOnTiles(f) && Alive(f)
    ensures Alive(Attacked(f, plan, tick, fortune))
  {
    PayingThins(f, plan.attacker, plan.cost);
    if !(plan.missile && plan.missed) {
      HitAllKeepsAlive(f.(agents := Spent(f.agents, plan.attacker, plan.cost)), plan.damage, plan.attacker, tick,
                       fortune);
    }
  }

  // A shot that is paid for costs exactly one unit of the ammunition named, and the shooter
  // nothing else.
  lemma AShotCostsOneUnit(agents: Agents, k: AgentKey, cost: AttackCost)
    requires CanSpend(agents, k, cost)
    requires Unique(HeldTally(BagOf(agents, k))) && Name(cost.newName) !in HeldTally(BagOf(agents, k))
    ensures var (after, ammo) := (Spent(agents, k, cost), FindByGuid(BagOf(agents, k)[RightHand], cost.guid));
            && IsPlayerOf(after, k) && after == WithBag(agents, k, BagOf(after, k))
            && ammo.Some? && ammo.value.amount >= 1
            && exists shot: Item ::
                 && shot.amount == 1 && shot.config == ammo.value.config
                 && HeldTally(BagOf(after, k)) + Tally(shot) == HeldTally(BagOf(agents, k)) + Minted(shot, cost.newName)
  {
    var slots := BagOf(agents, k);
    var it := slots[RightHand];
    var t := TakeFrom([it], cost.guid, 1, cost.newName).value;
    SlotIsPart(slots, RightHand);
    UniquePart(Tally(it), HeldTally(slots));
    TallyOne(it);
    TakesWhatIsFound([it], cost.guid, 1, cost.newName);
    assert FindIn([it][1..], cost.guid).None? by { assert [it][1..] == []; }
    TakenFromSlot(slots, RightHand, cost.guid, 1, cost.newName);
    BagWritten(agents, k, Drawn(slots, RightHand, cost.guid, 1, cost.newName));
    assert t.removed.amount == 1;
  }

  lemma TurnSettles(f: Field, k: AgentKey, tick: nat, fortune: Fortune)
    requires AllOnTiles(f) && Alive(f)
    ensures var g := Turn(f, k, tick, fortune);
            AllOnTiles(g) && Alive(g) && (k in g.agents ==> TargetStands(g, k))
  {
    TurnThins(f, k, tick, fortune);
    var g := Turn(f, k, tick, fortune);
    var plan := PlanOf(f, k, fortune);
    if !MustDrop(f, k) {
      if plan.Some? { AttackedKeepsAlive(f, plan.value, tick, fortune); }
      if k in g.agents { ThinningKeepsTargets(f, g, k); }
    }
  }

  // Whoever dies on the way, in whatever order the agents take their turns: after the pass
  // everyone on the map is alive, and every target can be reached.
  lemma {:induction false} PassIsSafe(f: Field, keys: seq<AgentKey>, tick: nat, fortune: Fortune)
    requires AllOnTiles(f) && Alive(f)
    requires forall k :: k in f.agents && k !in keys ==> TargetStands(f, k)
    ensures var g := Pass(f, keys, tick, fortune);
            && Thinned(f, g) && Alive(g) && (Aimed(f.agents) ==> Aimed(g.agents))
            && forall k :: k in g.agents ==> TargetStands(g, k)
    decreases keys
  {
    if keys != [] {
      var g := Turn(f, keys[0], tick, fortune);
      TurnThins(f, keys[0], tick, fortune);
      TurnSettles(f, keys[0], tick, fortune);
      forall k | k in g.agents && k !in keys[1..] ensures TargetStands(g, k) {
        if k != keys[0] { ThinningKeepsTargets(f, g, k); }
      }
      if Aimed(f.agents) { ThinningKeepsAim(f, g); }
      PassIsSafe(g, keys[1..], tick, fortune);
      ThinnedTwice(f, g, Pass(g, keys[1..], tick, fortune));
    }
  }

  // ---------------------------------------------------------------- damage adds up

  function StruckAll(a: Agent, hits: seq<(AgentKey, U32)>): (b: Agent)
    ensures b.inner == a.inner
    decreases hits
  {
    if hits == [] then a
    else StruckAll(Struck(a, Min(hits[0].1, a.life), Some(hits[0].0)), hits[1..])
  }

  // Between heals, what a creature has lost is what its attackers are credited with: life
  // and the participation total add up to the same through any sequence of hits. At death
  // the total is therefore the life it had, and the shares are proportional to that.
  lemma {:induction false} LifeLostIsDamageCredited(a: Agent, hits: seq<(AgentKey, U32)>)
    requires a.inner.Creature? && Distinct(a.participation) && a.life + Total(a.participation) <= U64_MAX
    ensures var b := StruckAll(a, hits);
            && b.life + Total(b.participation) == a.life + Total(a.participation)
            && Distinct(b.participation) && b.inner == a.inner
    decreases hits
  {
    if hits != [] {
      var value := Min(hits[0].1, a.life);
      DamageByIsInTotal(a.participation, hits[0].0);
      RecordAdds(a.participation, hits[0].0, value);
      LifeLostIsDamageCredited(Struck(a, value, Some(hits[0].0)), hits[1..]);
    }
  }

  lemma {:induction false} DamageByIsInTotal(t: Table, key: AgentKey)
    ensures DamageBy(t, key) <= Total(t)
  {
    if t != [] { DamageByIsInTotal(t[1..], key); }
  }

  // One hit of the combat pass is one such strike, or none when nothing can be taken.
  lemma HitsAreStrikes(f: Field, target: AgentKey, damage: CombatDamage, source: AgentKey, tick: nat, fortune: Fortune)
    requires AllOnTiles(f) && target in f.agents && f.agents[target].inner.Creature? && f.agents[target].life > 0
    ensures var (g, a) := (Hit(f, target, damage, Some(source), tick, fortune), f.agents[target]);
            if damage.value >= a.life
            then target !in g.agents
                 && g == Reaped(Bled(f.(agents := f.agents[target := StruckAll(a, [(source, damage.value)])]),
                                     f.places[target], damage.blood, tick), target, tick, fortune)
            else target in g.agents && (damage.value > 0 ==> g.agents[target] == StruckAll(a, [(source, damage.value)]))
                 && (damage.value == 0 ==> g == f)
  {
    var a := f.agents[target];
    assert [(source, damage.value)][1..] == [];
    assert StruckAll(a, [(source, damage.value)]) == Struck(a, Min(damage.value, a.life), Some(source));
  }

  // A player loses what it can and keeps one point of life, stays, and credits nobody.
  lemma PlayersKeepOnePoint(f: Field, target: AgentKey, damage: CombatDamage, source: Option<AgentKey>, tick: nat,
                            fortune: Fortune)
    requires AllOnTiles(f) && target in f.agents && f.agents[target].inner.Player? && f.agents[target].life > 0
    ensures var (g, a) := (Hit(f, target, damage, source, tick, fortune), f.agents[target]);
            && target in g.agents && g.agents[target] == a.(life := g.agents[target].life)
            && g.agents[target].life == (if a.life > damage.value then a.life - damage.value else 1)
  {
  }

  // ---------------------------------------------------------------- who attacks

  // On its turn an agent that is gone, or has no target, does nothing; one whose target does
  // not stand loses it and does nothing more; any other makes the attack it decides on.
  lemma TurnsByTarget(f: Field, k: AgentKey, tick: nat, fortune: Fortune)
    requires AllOnTiles(f)
    ensures var g := Turn(f, k, tick, fortune);
            if k !in f.agents || f.agents[k].target.None? then g == f
            else if !TargetStands(f, k)
            then g == f.(agents := f.agents[k := f.agents[k].(target := None, targetSeq := 0)])
            else if fortune.attack(k).None? then g == f
            else g == Attacked(f, fortune.attack(k).value, tick, fortune)
  {
    DropsWhoIsOutOfReach(f, k);
  }

  // A missile that misses costs its ammunition, and hurts nobody.
  lemma MissesHurtNobody(f: Field, plan: AttackPlan, tick: nat, fortune: Fortune)
    requires AllOnTiles(f) && plan.missile && plan.missed
    ensures var g := Attacked(f, plan, tick, fortune);
            && g.agents == Spent(f.agents, plan.attacker, plan.cost) && g.agents.Keys == f.agents.Keys
            && (forall k :: k in f.agents ==>
                  g.agents[k].life == f.agents[k].life && g.agents[k].participation == f.agents[k].participation)
            && (g.tiles, g.places, g.scheduled) == (f.tiles, f.places, f.scheduled)
  {
  }

  // Only a missile can miss: any other blow takes its full damage off the creature it is dealt
  // to, and is credited to who dealt it.
  lemma AttacksLandIff(f: Field, plan: AttackPlan, target: AgentKey, damage: CombatDamage, tick: nat, fortune: Fortune)
    requires AllOnTiles(f) && target in f.agents && f.agents[target].inner.Creature?
    requires plan.damage == [(target, damage)] && 0 < damage.value < f.agents[target].life
    ensures var (a, g) := (f.agents[target], Attacked(f, plan, tick, fortune));
            && target in g.agents
            && g.agents[target]
               == if plan.missile && plan.missed then a
                  else a.(life := a.life - damage.value,
                          participation := Recorded(a.participation, plan.attacker, damage.value))
  {
    var paid := f.(agents := Spent(f.agents, plan.attacker, plan.cost));
    assert plan.damage[1..] == [];
    assert HitAll(paid, plan.damage, plan.attacker, tick, fortune)
           == Hit(paid, target, damage, Some(plan.attacker), tick, fortune);
  }

  // An attack deals its hits in order, after it was paid for.
  lemma {:induction false} HitsLandInOrder(f: Field, hits: seq<(AgentKey, CombatDamage)>,
                                           more: seq<(AgentKey, CombatDamage)>, source: AgentKey, tick: nat,
                                           fortune: Fortune)
    requires AllOnTiles(f)
    ensures AllOnTiles(HitAll(f, hits, source, tick, fortune))
    ensures HitAll(f, hits + more, source, tick, fortune)
            == HitAll(HitAll(f, hits, source, tick, fortune), more, source, tick, fortune)
    decreases hits
  {
    if hits == [] {
      assert hits + more == more;
    } else {
      assert (hits + more)[1..] == hits[1..] + more && (hits + more)[0] == hits[0];
      HitThins(f, hits[0].0, hits[0].1, Some(source), tick, fortune);
      HitsLandInOrder(Hit(f, hits[0].0, hits[0].1, Some(source), tick, fortune), hits[1..], more, source, tick,
                      fortune);
    }
  }

  // ---------------------------------------------------------------- what is booked

  // A creature that respawns is booked for where it came from, its time after its death.
  lemma DeathsBookRespawns(f: Field, k: AgentKey, tick: nat, fortune: Fortune)
    requires AllOnTiles(f) && k in f.agents && f.agents[k].inner.Creature?
    ensures var respawn := f.agents[k].inner.respawnTicks;
            Reaped(f, k, tick, fortune).scheduled
            == f.scheduled
               + if respawn.None? then []
                 else [World.ScheduledCommand(tick + respawn.value,
                                              World.SpawnCreature(f.agents[k].inner.origin, respawn))]
  {
  }

  // ---------------------------------------------------------------- credit through the pass

  // Every creature has each attacker once in its table, and has not lost more than it could:
  // the total fits in the 32 bits life is counted in.
  ghost predicate Credited(f: Field) {
    forall k :: k in f.agents && f.agents[k].inner.Creature? ==>
      Distinct(f.agents[k].participation) && f.agents[k].life + Total(f.agents[k].participation) < 0x1_0000_0000
  }

  // Whoever is still there has lost in life what its table has gained.
  ghost predicate SameCredit(f: Field, g: Field) {
    forall k :: k in g.agents && g.agents[k].inner.Creature? ==>
      && k in f.agents && f.agents[k].inner.Creature?
      && g.agents[k].life + Total(g.agents[k].participation) == f.agents[k].life + Total(f.agents[k].participation)
  }

  lemma SameCreditTwice(f: Field, g: Field, h: Field)
    requires SameCredit(f, g) && SameCredit(g, h)
    ensures SameCredit(f, h)
  {
  }

  // The same creatures, some perhaps gone, with the same lives and tables.
  ghost predicate CreaturesKept(f: Field, g: Field) {
    forall k :: k in g.agents && g.agents[k].inner.Creature? ==>
      && k in f.agents && f.agents[k].inner.Creature?
      && g.agents[k].life == f.agents[k].life && g.agents[k].participation == f.agents[k].participation
  }

  lemma KeptAreCredited(f: Field, g: Field)
    requires Credited(f) && CreaturesKept(f, g)
    ensures Credited(g) && SameCredit(f, g)
  {
  }

  lemma ReapedKeepsCreatures(f: Field, k: AgentKey, tick: nat, fortune: Fortune)
    requires AllOnTiles(f) && k in f.agents && f.agents[k].inner.Creature?
    ensures CreaturesKept(f, Reaped(f, k, tick, fortune))
  {
    var dead := f.agents[k];
    var shares := Shares(dead.participation, dead.inner.experience);
    SharesArePayable(dead.participation, dead.inner.experience);
    AwardsKeepTargets(f.agents, shares);
    forall j | j in f.agents ensures AwardedAll(f.agents, shares)[j].inner.Creature? <==> f.agents[j].inner.Creature? {
      AwardsKeepKinds(f.agents, shares, j);
    }
  }

  lemma StrikeKeepsCredit(a: Agent, value: U32, source: AgentKey)
    requires a.inner.Creature? && Distinct(a.participation) && a.life + Total(a.participation) < 0x1_0000_0000
    requires value <= a.life
    ensures var b := Struck(a, value, Some(source));
            Distinct(b.participation) && b.life + Total(b.participation) == a.life + Total(a.participation)
  {
    assert [(source, value)][1..] == [];
    LifeLostIsDamageCredited(a, [(source, value)]);
    assert StruckAll(a, [(source, value)]) == Struck(a, value, Some(source));
  }

  lemma WoundKeepsCredit(f: Field, target: AgentKey, value: U32, source: AgentKey, blood: Option<Item>, tick: nat)
    requires AllOnTiles(f) && Credited(f) && target in f.agents && value <= f.agents[target].life
    ensures var g := Wounded(f, target, value, Some(source), blood, tick); Credited(g) && SameCredit(f, g)
  {
    if f.agents[target].inner.Creature? { StrikeKeepsCredit(f.agents[target], value, source); }
  }

  lemma HitKeepsCredit(f: Field, target: AgentKey, damage: CombatDamage, source: AgentKey, tick: nat, fortune: Fortune)
    requires AllOnTiles(f) && Credited(f)
    ensures var g := Hit(f, target, damage, Some(source), tick, fortune); Credited(g) && SameCredit(f, g)
  {
    if target in f.agents {
      var applied := Min(damage.value, Survivable(f.agents[target]));
      if applied > 0 {
        var hit := Wounded(f, target, applied, Some(source), damage.blood, tick);
        WoundKeepsCredit(f, target, applied, source, damage.blood, tick);
        if hit.agents[target].life == 0 {
          ReapedKeepsCreatures(hit, target, tick, fortune);
          KeptAreCredited(hit, Reaped(hit, target, tick, fortune));
          SameCreditTwice(f, hit, Reaped(hit, target, tick, fortune));
        }
      }
    }
  }

  lemma {:induction false} HitAllKeepsCredit(f: Field, hits: seq<(AgentKey, CombatDamage)>, source: AgentKey, tick: nat,
                                             fortune: Fortune)
    requires AllOnTiles(f) && Credited(f)
    ensures var g := HitAll(f, hits, source, tick, fortune); Credited(g) && SameCredit(f, g)
    decreases hits
  {
    if hits != [] {
      var g := Hit(f, hits[0].0, hits[0].1, Some(source), tick, fortune);
      HitThins(f, hits[0].0, hits[0].1, Some(source), tick, fortune);
      HitKeepsCredit(f, hits[0].0, hits[0].1, source, tick, fortune);
      HitAllKeepsCredit(g, hits[1..], source, tick, fortune);
      SameCreditTwice(f, g, HitAll(g, hits[1..], source, tick, fortune));
    }
  }

  lemma AttackedKeepsCredit(f: Field, plan: AttackPlan, tick: nat, fortune: Fortune)
    requires AllOnTiles(f) && Credited(f)
    ensures var g := Attacked(f, plan, tick, fortune); Credited(g) && SameCredit(f, g)
  {
    var paid := f.(agents := Spent(f.agents, plan.attacker, plan.cost));
    PayingThins(f, plan.attacker, plan.cost);
    KeptAreCredited(f, paid);
    if !(plan.missile && plan.missed) {
      HitAllKeepsCredit(paid, plan.damage, plan.attacker, tick, fortune);
      SameCreditTwice(f, paid, Attacked(f, plan, tick, fortune));
    }
  }

  lemma TurnKeepsCredit(f: Field, k: AgentKey, tick: nat, fortune: Fortune)
    requires AllOnTiles(f) && Credited(f)
    ensures var g := Turn(f, k, tick, fortune); Credited(g) && SameCredit(f, g)
  {
    var plan := PlanOf(f, k, fortune);
    if MustDrop(f, k) {
      KeptAreCredited(f, Dropped(f, k));
    } else if plan.Some? {
      AttackedKeepsCredit(f, plan.value, tick, fortune);
    }
  }

  // Over a whole pass, life lost is damage credited, for every creature that lives through it.
  lemma {:induction false} PassKeepsCredit(f: Field, keys: seq<AgentKey>, tick: nat, fortune: Fortune)
    requires AllOnTiles(f) && Credited(f)
    ensures var g := Pass(f, keys, tick, fortune); Credited(g) && SameCredit(f, g)
    decreases keys
  {
    if keys != [] {
      var g := Turn(f, keys[0], tick, fortune);
      TurnThins(f, keys[0], tick, fortune);
      TurnKeepsCredit(f, keys[0], tick, fortune);
      PassKeepsCredit(g, keys[1..], tick, fortune);
      SameCreditTwice(f, g, Pass(g, keys[1..], tick, fortune));
    }
  }

  // ---------------------------------------------------------------- experience handed out

  function ExperienceOf(agents: Agents, k: AgentKey): nat {
    if HasLevel(agents, k) then TotalExperience(agents[k].inner.level.value) else 0
  }

  function ShareOf(shares: seq<(AgentKey, nat)>, k: AgentKey): nat {
    if shares == [] then 0 else (if shares[0].0 == k then shares[0].1 else 0) + ShareOf(shares[1..], k)
  }

  ghost predicate HasRoomFor(agents: Agents, k: AgentKey, amount: nat) {
    HasLevel(agents, k) ==>
      ExpForLevel(agents[k].inner.level.value.value) + agents[k].inner.level.value.currentTicks + amount <= U64_MAX
  }

  lemma AwardedGains(agents: Agents, k: AgentKey, ticks: U64, rest: nat)
    requires HasRoomFor(agents, k, ticks + rest)
    ensures HasRoomFor(Awarded(agents, k, ticks), k, rest)
    ensures HasLevel(agents, k) ==>
              ExperienceOf(Awarded(agents, k, ticks), k) == ExperienceOf(agents, k) + ticks
  {
    if HasLevel(agents, k) {
      var skill := agents[k].inner.level.value;
      AwardIsTotalExperience(skill, ticks);
      ClimbKeepsExperience(skill.(currentTicks := skill.currentTicks + ticks));
    }
  }

  // Every player gains exactly its share - so all together, no more than the creature was
  // worth - and nothing else about anyone changes.
  lemma {:induction false} AwardsAreTheShares(agents: Agents, shares: seq<(AgentKey, nat)>, k: AgentKey)
    requires Payable(shares) && HasRoomFor(agents, k, ShareOf(shares, k))
    ensures HasLevel(agents, k) ==>
              ExperienceOf(AwardedAll(agents, shares), k) == ExperienceOf(agents, k) + ShareOf(shares, k)
    decreases shares
  {
    if shares != [] {
      PayableTail(shares);
      var once := Awarded(agents, shares[0].0, shares[0].1);
      if shares[0].0 == k { AwardedGains(agents, k, shares[0].1, ShareOf(shares[1..], k)); }
      AwardsAreTheShares(once, shares[1..], k);
    }
  }

  lemma {:induction false} ShareOfIsProportional(t: Table, pool: U32, total: nat, k: AgentKey)
    requires Distinct(t) && total > 0
    ensures ShareOf(SharesOf(t, pool, total), k) == MulDiv(pool, DamageBy(t, k), total)
  {
    if t == [] {
      NothingOfNothing(pool, total);
    } else {
      var (first, tail) := ((t[0].0, MulDiv(pool, t[0].1, total)), SharesOf(t[1..], pool, total));
      assert SharesOf(t, pool, total) == (if first.1 > 0 then [first] else []) + tail;
      assert ([first] + tail)[1..] == tail && [] + tail == tail;
      ShareOfIsProportional(t[1..], pool, total, k);
      if t[0].0 == k {
        AbsentDealtNothing(t[1..], k);
        NothingOfNothing(pool, total);
      }
    }
  }

  lemma NothingOfNothing(pool: nat, total: nat)
    requires total > 0
    ensures MulDiv(pool, 0, total) == 0
  {
    assert pool * 0 == 0;
  }

  // A reaped creature's attackers gain its experience in proportion to their damage, rounded
  // down, and all together no more than there was.
  lemma ReapingAwardsTheShares(f: Field, k: AgentKey, tick: nat, fortune: Fortune, player: AgentKey)
    requires AllOnTiles(f) && k in f.agents && f.agents[k].inner.Creature? && Distinct(f.agents[k].participation)
    requires HasLevel(f.agents, player)
    requires HasRoomFor(f.agents, player, f.agents[k].inner.experience)
    ensures var (t, worth) := (f.agents[k].participation, f.agents[k].inner.experience);
            var gain := ExperienceOf(Reaped(f, k, tick, fortune).agents, player) - ExperienceOf(f.agents, player);
            && gain == ShareOf(Shares(t, worth), player)
            && (Total(t) > 0 && worth > 0 ==> gain == MulDiv(worth, DamageBy(t, player), Total(t)))
            && Sum(Shares(t, worth)) <= worth
  {
    var (t, worth) := (f.agents[k].participation, f.agents[k].inner.experience);
    var shares := Shares(t, worth);
    SharesArePayable(t, worth);
    SharesNeverExceedThePool(t, worth);
    ShareIsPartOfTheSum(shares, player);
    AwardsAreTheShares(f.agents, shares, player);
    AwardsKeepTargets(f.agents, shares);
    AwardsKeepKinds(f.agents, shares, player);
    SameExperience(AwardedAll(f.agents, shares), Reaped(f, k, tick, fortune).agents, player);
    if Total(t) > 0 && worth > 0 { ShareOfIsProportional(t, worth, Total(t), player); }
  }

  lemma SameExperience(a: Agents, b: Agents, k: AgentKey)
    requires k in a && k in b && a[k].inner == b[k].inner
    ensures ExperienceOf(a, k) == ExperienceOf(b, k)
  {
  }

  // The product the shares are computed from fits in 64 bits.
  lemma {:induction false} SharesDoNotWrap(t: Table, pool: U32, i: nat)
    requires Total(t) < 0x1_0000_0000 && i < |t|
    ensures pool * t[i].1 <= U64_MAX
  {
    if i == 0 {
      ProductFits(pool, t[0].1);
    } else {
      SharesDoNotWrap(t[1..], pool, i - 1);
    }
  }

  lemma ProductFits(a: nat, b: nat)
    requires a < 0x1_0000_0000 && b < 0x1_0000_0000
    ensures a * b <= U64_MAX
  {
    GrowsWith(a, b, 0xFFFF_FFFF);
  }

  lemma GrowsWith(a: nat, b: nat, c: nat)
    requires b <= c
    ensures a * b <= a * c
  {
    ProductIsNat(a, c - b);
    assert a * c == a * b + a * (c - b);
  }

  lemma DeathReaps(f: Field, target: AgentKey, damage: CombatDamage, source: AgentKey, tick: nat, fortune: Fortune)
    requires AllOnTiles(f) && target in f.agents && f.agents[target].inner.Creature?
    requires 0 < f.agents[target].life <= damage.value
    ensures Hit(f, target, damage, Some(source), tick, fortune)
            == Reaped(Wounded(f, target, f.agents[target].life, Some(source), damage.blood, tick), target, tick,
                      fortune)
  {
  }

  // A hit that kills pays the shares of the table it completes; what the table adds up to is
  // the life the creature had before its attackers came to it.
  lemma DeathPaysTheShares(f: Field, target: AgentKey, damage: CombatDamage, source: AgentKey, tick: nat,
                           fortune: Fortune, player: AgentKey)
    requires AllOnTiles(f) && Credited(f) && target in f.agents && f.agents[target].inner.Creature?
    requires 0 < f.agents[target].life <= damage.value
    requires HasLevel(f.agents, player) && HasRoomFor(f.agents, player, f.agents[target].inner.experience)
    ensures var (before, worth) := (f.agents[target], f.agents[target].inner.experience);
            var t := Struck(before, before.life, Some(source)).participation;
            var after := Hit(f, target, damage, Some(source), tick, fortune).agents;
            && Total(t) == before.life + Total(before.participation)
            && (worth > 0 ==>
                  ExperienceOf(after, player) - ExperienceOf(f.agents, player)
                  == MulDiv(worth, DamageBy(t, player), Total(t)))
            && Sum(Shares(t, worth)) <= worth
  {
    var a := f.agents[target];
    var hit := Wounded(f, target, a.life, Some(source), damage.blood, tick);
    StrikeKeepsCredit(a, a.life, source);
    SameExperience(f.agents, hit.agents, player);
    DeathReaps(f, target, damage, source, tick, fortune);
    ReapingAwardsTheShares(hit, target, tick, fortune, player);
  }

  lemma {:induction false} ShareIsPartOfTheSum(shares: seq<(AgentKey, nat)>, k: AgentKey)
    ensures ShareOf(shares, k) <= Sum(shares)
  {
    if shares != [] { ShareIsPartOfTheSum(shares[1..], k); }
  }

  lemma {:induction false} AwardsKeepKinds(agents: Agents, shares: seq<(AgentKey, nat)>, k: AgentKey)
    requires Payable(shares) && k in agents
    ensures k in AwardedAll(agents, shares)
    ensures AwardedAll(agents, shares)[k].inner.Player? <==> agents[k].inner.Player?
    ensures agents[k].inner.Player? ==>
              (AwardedAll(agents, shares)[k].inner.level.Some? <==> agents[k].inner.level.Some?)
    decreases shares
  {
    if shares != [] {
      PayableTail(shares);
      AwardsKeepKinds(Awarded(agents, shares[0].0, shares[0].1), shares[1..], k);
    }
  }

  // ---------------------------------------------------------------- what the world holds

  // Bags are the same where everyone carries the same.
  ghost predicate CarryTheSame(a: Agent, b: Agent) {
    (a.inner.Player? <==> b.inner.Player?) && (a.inner.Player? ==> a.inner.inventory == b.inner.inventory)
  }

  lemma SameBags(a: Agents, b: Agents)
    requires a.Keys == b.Keys && forall k :: k in a ==> CarryTheSame(a[k], b[k])
    ensures BagsOf(a) == BagsOf(b)
  {
    forall k ensures k in BagsOf(a) <==> k in BagsOf(b) { if k in a { assert CarryTheSame(a[k], b[k]); } }
    forall k | k in BagsOf(a) ensures BagsOf(a)[k] == BagsOf(b)[k] { assert CarryTheSame(a[k], b[k]); }
  }

  lemma {:induction false} AwardsKeepInventories(agents: Agents, shares: seq<(AgentKey, nat)>, k: AgentKey)
    requires Payable(shares) && k in agents
    ensures k in AwardedAll(agents, shares) && CarryTheSame(AwardedAll(agents, shares)[k], agents[k])
    decreases shares
  {
    if shares != [] {
      PayableTail(shares);
      AwardsKeepInventories(Awarded(agents, shares[0].0, shares[0].1), shares[1..], k);
    }
  }

  lemma TargetsCarryNothing(agents: Agents, k: AgentKey)
    requires k in agents && agents[k].inner.Creature?
    ensures BagsOf(Untargeted(agents, k) - {k}) == BagsOf(agents)
  {
  }

  lemma UnseatingMovesNoItem(t: Tiles, bags: map<AgentKey, Slots>, at: Position, k: AgentKey)
    requires at in t
    ensures WorldTally(Unseat(t, at, k), bags) == WorldTally(t, bags)
  {
    assert OnTiles(Unseat(t, at, k)) == OnTiles(t);
  }

  // A death adds its corpse to the world, and takes nothing from it.
  lemma ReapingAddsTheCorpse(f: Field, k: AgentKey, tick: nat, fortune: Fortune)
    requires AllOnTiles(f) && k in f.agents && f.agents[k].inner.Creature?
    ensures var g := Reaped(f, k, tick, fortune);
            WorldTally(g.tiles, BagsOf(g.agents))
            == WorldTally(f.tiles, BagsOf(f.agents))
               + match fortune.remains(k) case Some(r) => Tally(CorpseOf(r)) case None => multiset{}
  {
    var dead, at := f.agents[k], f.places[k];
    var shares := Shares(dead.participation, dead.inner.experience);
    SharesArePayable(dead.participation, dead.inner.experience);
    var rich := AwardedAll(f.agents, shares);
    AwardsKeepTargets(f.agents, shares);
    forall j | j in rich ensures CarryTheSame(rich[j], f.agents[j]) { AwardsKeepInventories(f.agents, shares, j); }
    SameBags(rich, f.agents);
    TargetsCarryNothing(rich, k);
    UnseatingMovesNoItem(f.tiles, BagsOf(f.agents), at, k);
    if fortune.remains(k).Some? {
      OneMoreBalances(Unseat(f.tiles, at, k), BagsOf(f.agents), at, None, CorpseOf(fortune.remains(k).value));
    }
  }
}
