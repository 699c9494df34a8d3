/** The steps of the combat pass on the world, each refining its function on fields. */
module Combat {
  import opened Wrappers
  import opened Positions
  import opened Items
  import opened GameMaps
  import opened Events
  import opened Scenes
  import opened Ticks
  import opened ItemMovement
  import opened Participation
  import opened Skills
  import opened Blood
  import opened Battle
  import Loot
  import World

  // ---------------------------------------------------------------- the steps on the world

  ghost function FieldOf(ctx: TickCtx): Field
    reads ctx, ctx.world
  {
    Field(ctx.world.tiles, ctx.world.agents, ctx.world.places, ctx.scheduled)
  }

  // The agent index is in order, so everyone on the map stands on a tile.
  lemma EveryoneStands(ctx: TickCtx)
    requires ctx.Valid()
    ensures AllOnTiles(FieldOf(ctx))
  {
  }

  method SetTarget(ctx: TickCtx, k: AgentKey, target: Option<AgentKey>, seqNo: U32)
    requires ctx.Valid()
    modifies ctx`events, ctx.world`agents
    ensures ctx.Valid() && ctx.world.agents == Targeted(old(ctx.world.agents), k, target, seqNo)
    ensures Aimed(old(ctx.world.agents)) ==> Aimed(ctx.world.agents)
    ensures k in ctx.world.agents && ctx.world.agents[k].target.Some? ==>
              ctx.world.agents[k].target.value in ctx.world.agents && ctx.world.agents[k].target.value != k
    ensures ctx.events == old(ctx.events)
                          + if k in old(ctx.world.agents) && target.Some?
                               && (target.value == k || target.value !in old(ctx.world.agents))
                            then [AgentLostTarget(k, seqNo)] else []
  {
    if k !in ctx.world.agents { return; }
    var accepted := target.Some? && target.value != k && target.value in ctx.world.agents;
    ctx.world.SetAgent(k, if accepted then ctx.world.agents[k].(target := target, targetSeq := seqNo)
                          else Untargeting(ctx.world.agents[k]));
    if target.Some? && !accepted {
      ctx.events := ctx.events + [AgentLostTarget(k, seqNo)];
    }
  }

  // Announced with the number of the request that set the target.
  method LoseTarget(ctx: TickCtx, k: AgentKey)
    requires ctx.Valid()
    modifies ctx`events, ctx.world`agents
    ensures ctx.Valid()
    ensures if k in old(ctx.world.agents) && old(ctx.world.agents)[k].target.Some?
            then ctx.world.agents == old(ctx.world.agents)[k := Untargeting(old(ctx.world.agents)[k])]
                 && ctx.events == old(ctx.events) + [AgentLostTarget(k, old(ctx.world.agents)[k].targetSeq)]
            else ctx.world.agents == old(ctx.world.agents) && ctx.events == old(ctx.events)
  {
    if k !in ctx.world.agents || ctx.world.agents[k].target.None? { return; }
    var seqNo := ctx.world.agents[k].targetSeq;
    ctx.world.SetAgent(k, Untargeting(ctx.world.agents[k]));
    ctx.events := ctx.events + [AgentLostTarget(k, seqNo)];
  }

  method DropUnreachableTarget(ctx: TickCtx, k: AgentKey) returns (dropped: bool)
    requires ctx.Valid()
    modifies ctx`events, ctx.world`agents
    ensures ctx.Valid()
    ensures dropped == MustDrop(old(FieldOf(ctx)), k)
    ensures dropped <==> k in old(ctx.world.agents) && k in ctx.world.places && !TargetStands(old(FieldOf(ctx)), k)
    ensures FieldOf(ctx) == Dropped(old(FieldOf(ctx)), k)
  {
    DropsWhoIsOutOfReach(FieldOf(ctx), k);
    if k !in ctx.world.agents || ctx.world.agents[k].target.None? || k !in ctx.world.places { return false; }
    var target := ctx.world.agents[k].target.value;
    if target in ctx.world.agents && target in ctx.world.places
       && CanTarget(ctx.world.places[k], ctx.world.places[target]) {
      return false;
    }
    LoseTarget(ctx, k);
    return true;
  }

  method TickAgent(a: Agent, ticks: U64) returns (b: Agent, gained: U16)
    requires a.inner.Player? && a.inner.level.Some?
    ensures b == Levelled(a, ticks)
  {
    var level;
    level, gained := Advance(a.inner.level.value, ticks, LevelCurve());
    b := a.(inner := a.inner.(level := Some(level)));
  }

  // One player's share of the experience.
  method TickLevel(ctx: TickCtx, k: AgentKey, ticks: U64)
    requires ctx.Valid()
    modifies ctx`events, ctx.world`agents
    ensures ctx.Valid() && ctx.world.agents == Awarded(old(ctx.world.agents), k, ticks)
  {
    if !HasLevel(ctx.world.agents, k) { return; }
    var a, gained := TickAgent(ctx.world.agents[k], ticks);
    ctx.world.SetAgent(k, a);
    ctx.events := ctx.events + [if gained > 0 then SkillUpgraded(k, gained, ticks) else SkillProgressUpdated(k, ticks)];
  }

  method Award(ctx: TickCtx, victim: AgentKey)
    requires ctx.Valid() && victim in ctx.world.agents && ctx.world.agents[victim].inner.Creature?
    modifies ctx`events, ctx.world`agents
    ensures ctx.Valid()
    ensures var dead := old(ctx.world.agents)[victim];
            && Payable(Shares(dead.participation, dead.inner.experience))
            && ctx.world.agents == AwardedAll(old(ctx.world.agents), Shares(dead.participation, dead.inner.experience))
  {
    var dead := ctx.world.agents[victim];
    var shares := Shares(dead.participation, dead.inner.experience);
    SharesArePayable(dead.participation, dead.inner.experience);
    ghost var before := ctx.world.agents;
    var i := 0;
    while i < |shares|
      invariant 0 <= i <= |shares| && ctx.Valid()
      invariant Payable(shares[i..])
      invariant AwardedAll(ctx.world.agents, shares[i..]) == AwardedAll(before, shares)
    {
      assert shares[i..][1..] == shares[i + 1..];
      PayableTail(shares[i..]);
      TickLevel(ctx, shares[i].0, shares[i].1);
      i := i + 1;
    }
  }

  method DrawBlood(ctx: TickCtx, at: Position, blood: Option<Item>)
    requires ctx.Valid() && at in ctx.world.tiles
    modifies ctx`events, ctx`scheduled, ctx.world`chunks, ctx.world`tiles
    ensures ctx.Valid()
    ensures FieldOf(ctx) == Bled(old(FieldOf(ctx)), at, blood, ctx.tick)
  {
    if blood.None? { return; }
    var pool := blood.value;
    var tile := ctx.world.GetTile(at);
    var items := tile.value.items;
    var placed := ctx.world.PlaceOnTile(at, Some(GroundDepth(items)), pool);
    CheckDecay(ctx, pool, at);
    match FirstPool(items) {
      case None =>
      case Some(g) => var _ := ctx.world.RemoveItemFromTile(at, g, 1, g);
    }
    ctx.events := ctx.events + [TileChanged(at)];
  }

  method CheckDecay(ctx: TickCtx, item: Item, at: Position)
    modifies ctx`scheduled
    ensures ctx.scheduled == old(ctx.scheduled) + Drying(item, at, ctx.tick)
    ensures item.config.decay.Some? ==>
              ctx.scheduled == old(ctx.scheduled)
                + [World.ScheduledCommand(ctx.tick + item.config.decay.value, World.DecayItem(item.guid, OnMap(at)))]
    ensures item.config.decay.None? ==> ctx.scheduled == old(ctx.scheduled)
  {
    if item.config.decay.Some? {
      ctx.scheduled := ctx.scheduled
        + [World.ScheduledCommand(ctx.tick + item.config.decay.value, World.DecayItem(item.guid, OnMap(at)))];
    }
  }

  // ---------------------------------------------------------------- reaping and hitting

  // The agents with a property, listed once each; in which order is up to the slot map.
  method KeysWhere(agents: Agents, has: Agent -> bool) returns (keys: seq<AgentKey>)
    ensures forall k :: k in keys <==> k in agents && has(agents[k])
    ensures forall i, j :: 0 <= i < j < |keys| ==> keys[i] != keys[j]
  {
    keys := [];
    var rest := agents.Keys;
    while rest != {}
      invariant rest <= agents.Keys
      invariant forall k :: k in keys <==> k in agents && k !in rest && has(agents[k])
      invariant forall i, j :: 0 <= i < j < |keys| ==> keys[i] != keys[j]
      decreases |rest|
    {
      var k :| k in rest;
      rest := rest - {k};
      if has(agents[k]) { keys := keys + [k]; }
    }
  }

  function Forgetting(agents: Agents, k: AgentKey): Agents {
    if k in agents && agents[k].target.Some? then agents[k := Untargeting(agents[k])] else agents
  }

  function ForgettingAll(agents: Agents, keys: seq<AgentKey>): Agents {
    if keys == [] then agents else ForgettingAll(Forgetting(agents, keys[0]), keys[1..])
  }

  lemma {:induction false} ForgettingEach(agents: Agents, keys: seq<AgentKey>)
    requires forall k :: k in keys ==> k in agents && agents[k].target.Some?
    requires forall i, j :: 0 <= i < j < |keys| ==> keys[i] != keys[j]
    ensures ForgettingAll(agents, keys).Keys == agents.Keys
    ensures forall k :: k in agents ==>
              ForgettingAll(agents, keys)[k] == if k in keys then Untargeting(agents[k]) else agents[k]
  {
    if keys != [] {
      assert keys[0] in keys;
      ForgettingEach(Forgetting(agents, keys[0]), keys[1..]);
    }
  }

  // Everyone who targets the dead loses the target.
  method ForgetTarget(ctx: TickCtx, dead: AgentKey)
    requires ctx.Valid()
    modifies ctx`events, ctx.world`agents
    ensures ctx.Valid() && ctx.world.agents == Untargeted(old(ctx.world.agents), dead)
  {
    ghost var agents := ctx.world.agents;
    var keys := KeysWhere(ctx.world.agents, (a: Agent) => a.target == Some(dead));
    ForgettingEach(agents, keys);
    LoseTargets(ctx, keys);
  }

  method LoseTargets(ctx: TickCtx, keys: seq<AgentKey>)
    requires ctx.Valid()
    modifies ctx`events, ctx.world`agents
    ensures ctx.Valid() && ctx.world.agents == ForgettingAll(old(ctx.world.agents), keys)
  {
    ghost var agents := ctx.world.agents;
    var i := 0;
    while i < |keys|
      invariant 0 <= i <= |keys| && ctx.Valid()
      invariant ForgettingAll(ctx.world.agents, keys[i..]) == ForgettingAll(agents, keys)
    {
      assert keys[i..][1..] == keys[i + 1..];
      LoseTarget(ctx, keys[i]);
      i := i + 1;
    }
  }

  method ScheduleRespawn(ctx: TickCtx, dead: Agent)
    requires dead.inner.Creature?
    modifies ctx`scheduled
    ensures ctx.scheduled == old(ctx.scheduled) + Respawn(dead, ctx.tick)
  {
    if dead.inner.respawnTicks.None? { return; }
    ctx.scheduled := ctx.scheduled
      + [World.ScheduledCommand(ctx.tick + dead.inner.respawnTicks.value,
                                World.SpawnCreature(dead.inner.origin, dead.inner.respawnTicks))];
  }

  method Reap(ctx: TickCtx, k: AgentKey, fortune: Fortune)
    requires ctx.Valid()
    modifies ctx`events, ctx`scheduled, ctx.world
    ensures ctx.Valid() && AllOnTiles(old(FieldOf(ctx)))
    ensures var agents := old(ctx.world.agents);
            FieldOf(ctx) == if k in agents && agents[k].inner.Creature? && agents[k].life == 0
                            then Reaped(old(FieldOf(ctx)), k, ctx.tick, fortune) else old(FieldOf(ctx))
  {
    EveryoneStands(ctx);
    if k !in ctx.world.agents || ctx.world.agents[k].inner.Player? || ctx.world.agents[k].life > 0 { return; }
    var dead := ctx.world.agents[k];
    Award(ctx, k);
    ForgetTarget(ctx, k);
    Bury(ctx, k, fortune);
    ScheduleRespawn(ctx, dead);
  }

  // Off the map, leaving a corpse on the tile.
  method Bury(ctx: TickCtx, k: AgentKey, fortune: Fortune)
    requires ctx.Valid() && k in ctx.world.agents
    modifies ctx`events, ctx.world
    ensures ctx.Valid()
    ensures k in old(ctx.world.places) && old(ctx.world.places)[k] in old(ctx.world.tiles)
    ensures ctx.world.agents == old(ctx.world.agents) - {k} && ctx.world.places == old(ctx.world.places) - {k}
    ensures var left := Unseat(old(ctx.world.tiles), old(ctx.world.places)[k], k);
            ctx.world.tiles
            == if fortune.remains(k).None? then left
               else WithOneMore(left, old(ctx.world.places)[k], None, CorpseOf(fortune.remains(k).value))
  {
    var removed := ctx.world.RemoveAgent(k);
    var at := removed.value.1;
    ctx.events := ctx.events + [AgentDespawned(k, at)];
    var remains := fortune.remains(k);
    if remains.Some? {
      var corpse := Loot.RollCreatureLoot(remains.value.corpse, remains.value.rolls, remains.value.names);
      var _ := ctx.Drop(at, None, corpse);
    }
  }

  method ApplyDamage(ctx: TickCtx, target: AgentKey, damage: CombatDamage, source: Option<AgentKey>, fortune: Fortune)
    requires ctx.Valid()
    modifies ctx`events, ctx`scheduled, ctx.world
    ensures ctx.Valid() && AllOnTiles(old(FieldOf(ctx)))
    ensures FieldOf(ctx) == Hit(old(FieldOf(ctx)), target, damage, source, ctx.tick, fortune)
  {
    EveryoneStands(ctx);
    if target !in ctx.world.agents || target !in ctx.world.places { return; }
    var at, a := ctx.world.places[target], ctx.world.agents[target];
    var applied := Min(damage.value, Survivable(a));
    if applied == 0 {
      if damage.blockedShield || damage.blockedArmor {
        ctx.events := ctx.events + [DamageTaken(target, at, 0)];
      }
      return;
    }
    ctx.world.SetAgent(target, Struck(a, applied, source));
    ctx.events := ctx.events + [DamageTaken(target, at, applied)];
    DrawBlood(ctx, at, damage.blood);
    if ctx.world.agents[target].life == 0 {
      Reap(ctx, target, fortune);
    }
  }

  method ExecuteAttack(ctx: TickCtx, plan: AttackPlan, fortune: Fortune)
    requires ctx.Valid()
    modifies ctx`events, ctx`scheduled, ctx.world
    ensures ctx.Valid() && AllOnTiles(old(FieldOf(ctx)))
    ensures FieldOf(ctx) == Attacked(old(FieldOf(ctx)), plan, ctx.tick, fortune)
  {
    EveryoneStands(ctx);
    PayCost(ctx, plan.attacker, plan.cost);
    EveryoneStands(ctx);
    if plan.missile && plan.missed { return; }
    ApplyAll(ctx, plan.damage, plan.attacker, fortune);
  }

  // A cost that cannot be paid does not stop the attack.
  method PayCost(ctx: TickCtx, k: AgentKey, cost: AttackCost)
    requires ctx.Valid()
    modifies ctx`events, ctx.world`agents
    ensures ctx.Valid() && ctx.world.agents == Spent(old(ctx.world.agents), k, cost)
  {
    match cost {
      case Free =>
      case Ammunition(guid, newName) => var _ := RemoveFromSlot(ctx, k, RightHand, guid, 1, newName);
    }
  }

  method ApplyAll(ctx: TickCtx, hits: seq<(AgentKey, CombatDamage)>, source: AgentKey, fortune: Fortune)
    requires ctx.Valid()
    modifies ctx`events, ctx`scheduled, ctx.world
    ensures ctx.Valid() && AllOnTiles(old(FieldOf(ctx)))
    ensures FieldOf(ctx) == HitAll(old(FieldOf(ctx)), hits, source, ctx.tick, fortune)
  {
    EveryoneStands(ctx);
    ghost var f := FieldOf(ctx);
    var i := 0;
    while i < |hits|
      invariant 0 <= i <= |hits| && ctx.Valid() && AllOnTiles(FieldOf(ctx))
      invariant HitAll(FieldOf(ctx), hits[i..], source, ctx.tick, fortune) == HitAll(f, hits, source, ctx.tick, fortune)
    {
      var (target, damage) := hits[i];
      assert hits[i..][1..] == hits[i + 1..];
      ApplyDamage(ctx, target, damage, Some(source), fortune);
      EveryoneStands(ctx);
      i := i + 1;
    }
  }

  // ---------------------------------------------------------------- the pass

  method DriveAutoAttack(ctx: TickCtx, k: AgentKey, fortune: Fortune)
    requires ctx.Valid() && !MustDrop(FieldOf(ctx), k)
    modifies ctx`events, ctx`scheduled, ctx.world
    ensures ctx.Valid() && AllOnTiles(old(FieldOf(ctx)))
    ensures FieldOf(ctx) == Turn(old(FieldOf(ctx)), k, ctx.tick, fortune)
  {
    EveryoneStands(ctx);
    if k !in ctx.world.agents || k !in ctx.world.places { return; }
    var target := ctx.world.agents[k].target;
    if target.None? || target.value !in ctx.world.places { return; }
    var plan := fortune.attack(k);
    if plan.None? { return; }
    ExecuteAttack(ctx, plan.value, fortune);
  }

  method TakeTurn(ctx: TickCtx, k: AgentKey, fortune: Fortune)
    requires ctx.Valid()
    modifies ctx`events, ctx`scheduled, ctx.world
    ensures ctx.Valid() && AllOnTiles(old(FieldOf(ctx)))
    ensures FieldOf(ctx) == Turn(old(FieldOf(ctx)), k, ctx.tick, fortune)
  {
    EveryoneStands(ctx);
    var dropped := DropUnreachableTarget(ctx, k);
    if !dropped { DriveAutoAttack(ctx, k, fortune); }
  }

  // The agents with a target when the pass begins take their turns, dead or alive.
  method CombatSystem(ctx: TickCtx, fortune: Fortune) returns (keys: seq<AgentKey>)
    requires ctx.Valid() && Alive(FieldOf(ctx))
    modifies ctx`events, ctx`scheduled, ctx.world
    ensures ctx.Valid() && AllOnTiles(old(FieldOf(ctx))) && AllOnTiles(FieldOf(ctx))
    ensures forall k :: k in keys <==> k in old(ctx.world.agents) && old(ctx.world.agents)[k].target.Some?
    ensures forall i, j :: 0 <= i < j < |keys| ==> keys[i] != keys[j]
    ensures FieldOf(ctx) == Pass(old(FieldOf(ctx)), keys, ctx.tick, fortune)
    ensures Alive(FieldOf(ctx)) && (old(Aimed(ctx.world.agents)) ==> Aimed(ctx.world.agents))
    ensures old(Credited(FieldOf(ctx))) ==> Credited(FieldOf(ctx)) && SameCredit(old(FieldOf(ctx)), FieldOf(ctx))
    ensures forall k :: k in ctx.world.agents ==> TargetStands(FieldOf(ctx), k)
  {
    EveryoneStands(ctx);
    ghost var f := FieldOf(ctx);
    keys := KeysWhere(ctx.world.agents, (a: Agent) => a.target.Some?);
    TakeTurns(ctx, keys, fortune);
    PassIsSafe(f, keys, ctx.tick, fortune);
    if Credited(f) { PassKeepsCredit(f, keys, ctx.tick, fortune); }
  }

  method TakeTurns(ctx: TickCtx, keys: seq<AgentKey>, fortune: Fortune)
    requires ctx.Valid()
    modifies ctx`events, ctx`scheduled, ctx.world
    ensures ctx.Valid() && AllOnTiles(old(FieldOf(ctx)))
    ensures FieldOf(ctx) == Pass(old(FieldOf(ctx)), keys, ctx.tick, fortune)
  {
    EveryoneStands(ctx);
    ghost var f := FieldOf(ctx);
    var i := 0;
    while i < |keys|
      invariant 0 <= i <= |keys| && ctx.Valid() && AllOnTiles(FieldOf(ctx))
      invariant Pass(FieldOf(ctx), keys[i..], ctx.tick, fortune) == Pass(f, keys, ctx.tick, fortune)
    {
      assert keys[i..][1..] == keys[i + 1..];
      TakeTurn(ctx, keys[i], fortune);
      EveryoneStands(ctx);
      i := i + 1;
    }
  }
}
