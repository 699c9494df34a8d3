/**
 The tick loop: commands wait in a priority queue, every tick takes out the ones that are
 due, and running them schedules more. The rules of the game are a parameter.
 */
module World {
  import opened Wrappers
  import opened Positions

  datatype WorldCommand =
    | RequestLogout(agentKey: AgentKey)
    | SpawnCreature(origin: Position, respawnTicks: Option<nat>)
    | DecayItem(guid: Guid, placement: ItemPlacement)
    | Rule(id: nat) // any other command; what it does is up to `Game.run`

  datatype ScheduledCommand = ScheduledCommand(atTick: nat, command: WorldCommand)

  type Scheduled = seq<ScheduledCommand>

  // What the loop calls: the handlers of commands other than logout, the systems at the end
  // of a tick, and the two things a logout asks of the world.
  datatype Game<!S> = Game(
    run: (S, WorldCommand, nat) -> (S, Scheduled),
    systems: (S, nat) -> (S, Scheduled),
    nextWalkTick: (S, AgentKey) -> Option<nat>,
    despawn: (S, AgentKey) -> S)

  ghost predicate AllAfter(commands: Scheduled, tick: nat) {
    forall c :: c in commands ==> c.atTick > tick
  }

  // Every delay the rules of the game use is at least one tick.
  ghost predicate Delays<S(!new)>(game: Game<S>) {
    && (forall s, c, t :: AllAfter(game.run(s, c, t).1, t))
    && (forall s, t :: AllAfter(game.systems(s, t).1, t))
  }

  // A player still walking may not leave: the request is put off to when the walk ends.
  function Handle<S>(game: Game<S>, s: S, c: WorldCommand, tick: nat): (S, Scheduled) {
    match c
    case RequestLogout(key) =>
      (match game.nextWalkTick(s, key)
       case None => (s, [])
       case Some(walk) =>
         if walk <= tick then (game.despawn(s, key), [])
         else (s, [ScheduledCommand(walk, c)]))
    case _ => game.run(s, c, tick)
  }

  lemma HandleSchedulesTheFuture<S(!new)>(game: Game<S>, s: S, c: WorldCommand, tick: nat)
    requires Delays(game)
    ensures AllAfter(Handle(game, s, c, tick).1, tick)
  {
  }

  // A denied logout is requeued, strictly later, exactly when the player is still walking;
  // by the tick it is requeued for, that walk no longer denies it.
  lemma DeniedLogoutComesBackLater<S(!new)>(game: Game<S>, s: S, key: AgentKey, tick: nat)
    ensures var (s', again) := Handle(game, s, RequestLogout(key), tick);
            var walk := game.nextWalkTick(s, key);
            && (again != [] <==> walk.Some? && walk.value > tick)
            && (again != [] ==>
                  && s' == s && again == [ScheduledCommand(walk.value, RequestLogout(key))]
                  && again[0].atTick > tick
                  && Handle(game, s, RequestLogout(key), again[0].atTick) == (game.despawn(s, key), []))
  {
  }

  // ---------------------------------------------------------------- the queue

  datatype Ordering = Less | Equal | Greater

  // Earlier ticks compare greater, because the heap hands out its greatest element first.
  function Compare(a: ScheduledCommand, b: ScheduledCommand): Ordering {
    if a.atTick > b.atTick then Less else if a.atTick < b.atTick then Greater else Equal
  }

  // A total order on the ticks, turned round.
  lemma OrderIsReversed(a: ScheduledCommand, b: ScheduledCommand)
    ensures Compare(a, b).Equal? <==> a.atTick == b.atTick
    ensures Compare(a, b).Less? <==> Compare(b, a).Greater?
    ensures Compare(a, b).Greater? <==> a.atTick < b.atTick
  {
  }

  ghost predicate IsTop(queue: multiset<ScheduledCommand>, top: ScheduledCommand) {
    top in queue && forall c :: c in queue ==> Compare(c, top) != Greater
  }

  lemma TopIsEarliest(queue: multiset<ScheduledCommand>, top: ScheduledCommand)
    requires top in queue
    ensures IsTop(queue, top) <==> forall c :: c in queue ==> top.atTick <= c.atTick
  {
  }

  lemma {:induction false} SomeTop(queue: multiset<ScheduledCommand>) returns (top: ScheduledCommand)
    requires queue != multiset{}
    ensures IsTop(queue, top)
    decreases |queue|
  {
    var c :| c in queue;
    var rest := queue - multiset{c};
    if rest == multiset{} {
      top := c;
      assert forall d :: d in queue ==> d == c || d in rest;
    } else {
      var other := SomeTop(rest);
      assert forall d :: d in queue ==> d == c || d in rest;
      top := if c.atTick <= other.atTick then c else other;
    }
  }

  // The standard library's heap: which of several greatest elements it pops is not said.
  class CommandQueue {
    var pending: multiset<ScheduledCommand>

    constructor ()
      ensures pending == multiset{}
    {
      pending := multiset{};
    }

    method Push(c: ScheduledCommand)
      modifies this
      ensures pending == old(pending) + multiset{c}
    {
      pending := pending + multiset{c};
    }

    method PushAll(commands: Scheduled)
      modifies this
      ensures pending == old(pending) + multiset(commands)
    {
      var i := 0;
      while i < |commands|
        invariant 0 <= i <= |commands|
        invariant pending == old(pending) + multiset(commands[..i])
      {
        assert commands[..i + 1] == commands[..i] + [commands[i]];
        Push(commands[i]);
        i := i + 1;
      }
      assert commands[..|commands|] == commands;
    }

    // The next command, if it is due.
    method PopDue(tick: nat) returns (c: Option<ScheduledCommand>)
      modifies this
      ensures c.None? ==> pending == old(pending) && forall d :: d in pending ==> d.atTick > tick
      ensures c.Some? ==>
                && IsTop(old(pending), c.value) && c.value.atTick <= tick
                && pending == old(pending) - multiset{c.value}
    {
      if pending == multiset{} { return None; }
      ghost var top := SomeTop(pending);
      var next :| next in pending && forall c :: c in pending ==> Compare(c, next) != Greater;
      assert IsTop(pending, next);
      TopIsEarliest(pending, next);
      if next.atTick > tick { return None; }
      pending := pending - multiset{next};
      return Some(next);
    }
  }

  // ---------------------------------------------------------------- draining

  ghost predicate IsDue(queue: multiset<ScheduledCommand>, due: multiset<ScheduledCommand>, tick: nat) {
    && due <= queue
    && (forall c :: c in due ==> c.atTick <= tick)
    && (forall c :: c in queue - due ==> c.atTick > tick)
  }

  // There is only one way to split a queue into the due and the others.
  lemma DueIsUnique(queue: multiset<ScheduledCommand>, a: multiset<ScheduledCommand>,
                    b: multiset<ScheduledCommand>, tick: nat)
    requires IsDue(queue, a, tick) && IsDue(queue, b, tick)
    ensures a == b
  {
    forall c ensures a[c] == b[c] {
      if a[c] < queue[c] { assert c in queue - a; }
      if b[c] < queue[c] { assert c in queue - b; }
      if c.atTick <= tick { assert c !in queue - a && c !in queue - b; }
    }
  }

  ghost predicate InOrder(ran: Scheduled) {
    forall i, j :: 0 <= i < j < |ran| ==> ran[i].atTick <= ran[j].atTick
  }

  // The world after running `ran` one after the other, and what that scheduled.
  function RunAll<S>(game: Game<S>, s: S, ran: Scheduled, tick: nat): (S, Scheduled) {
    if ran == [] then (s, [])
    else
      var (before, scheduled) := RunAll(game, s, ran[..|ran| - 1], tick);
      var (after, more) := Handle(game, before, ran[|ran| - 1].command, tick);
      (after, scheduled + more)
  }

  lemma RunOneMore<S>(game: Game<S>, s: S, ran: Scheduled, next: ScheduledCommand, tick: nat)
    ensures var (before, scheduled) := RunAll(game, s, ran, tick);
            var (after, more) := Handle(game, before, next.command, tick);
            RunAll(game, s, ran + [next], tick) == (after, scheduled + more)
  {
    assert (ran + [next])[..|ran|] == ran;
  }

  // What the commands of a tick schedule, and then the systems.
  function TickSchedules<S>(game: Game<S>, s: S, ran: Scheduled, tick: nat): Scheduled {
    var (after, scheduled) := RunAll(game, s, ran, tick);
    scheduled + game.systems(after, tick).1
  }

  // ---------------------------------------------------------------- logouts

  // The i-th command run is a logout, and when its turn comes the player is walking.
  ghost predicate DeniedAt<S>(game: Game<S>, s: S, ran: Scheduled, tick: nat, i: nat) {
    && i < |ran| && ran[i].command.RequestLogout?
    && var walk := game.nextWalkTick(RunAll(game, s, ran[..i], tick).0, ran[i].command.agentKey);
       walk.Some? && walk.value > tick
  }

  // The i-th command run is a logout of the player, who may leave or is not there.
  ghost predicate SettledAt<S>(game: Game<S>, s: S, ran: Scheduled, tick: nat, i: nat, key: AgentKey) {
    i < |ran| && ran[i].command == RequestLogout(key) && !DeniedAt(game, s, ran, tick, i)
  }

  ghost predicate LogoutPending(queue: multiset<ScheduledCommand>, key: AgentKey, tick: nat) {
    exists c :: c in queue && c.command == RequestLogout(key) && c.atTick > tick
  }

  lemma {:induction false} DeniedIsScheduled<S>(game: Game<S>, s: S, ran: Scheduled, tick: nat, i: nat)
    requires DeniedAt(game, s, ran, tick, i)
    ensures exists c :: c in RunAll(game, s, ran, tick).1 && c.command == ran[i].command && c.atTick > tick
    decreases |ran|
  {
    var n := |ran| - 1;
    var (before, scheduled) := RunAll(game, s, ran[..n], tick);
    var more := Handle(game, before, ran[n].command, tick).1;
    assert RunAll(game, s, ran, tick).1 == scheduled + more;
    if i < n {
      assert ran[..n][..i] == ran[..i] && ran[..n][i] == ran[i];
      DeniedIsScheduled(game, s, ran[..n], tick, i);
      var c :| c in scheduled && c.command == ran[i].command && c.atTick > tick;
      assert c in scheduled + more;
    } else {
      var c := ScheduledCommand(game.nextWalkTick(before, ran[n].command.agentKey).value, ran[n].command);
      assert more == [c] && c in scheduled + more;
    }
  }

  // A logout that was pending before a tick is pending after it, unless one of the player's
  // logouts was run and not denied.
  lemma LogoutsSurvive<S>(game: Game<S>, s: S, queue: multiset<ScheduledCommand>, ran: Scheduled, tick: nat,
                          queue': multiset<ScheduledCommand>, key: AgentKey)
    requires IsDue(queue, multiset(ran), tick)
    requires queue' == queue - multiset(ran) + multiset(TickSchedules(game, s, ran, tick))
    requires exists c :: c in queue && c.command == RequestLogout(key)
    ensures LogoutPending(queue', key, tick) || exists i :: SettledAt(game, s, ran, tick, i, key)
  {
    var c :| c in queue && c.command == RequestLogout(key);
    if c in multiset(ran) {
      var i :| 0 <= i < |ran| && ran[i] == c;
      if DeniedAt(game, s, ran, tick, i) {
        DeniedIsScheduled(game, s, ran, tick, i);
        var d :| d in RunAll(game, s, ran, tick).1 && d.command == ran[i].command && d.atTick > tick;
        assert d in TickSchedules(game, s, ran, tick) && d in queue';
      } else {
        assert SettledAt(game, s, ran, tick, i, key);
      }
    } else {
      assert c in queue - multiset(ran) && c in queue';
    }
  }

  // No logout is lost: it stays pending until the player may leave, or is gone.
  ghost predicate LogoutsKept<S>(game: Game<S>, s: S, queue: multiset<ScheduledCommand>, ran: Scheduled, tick: nat,
                                 queue': multiset<ScheduledCommand>) {
    forall key :: (exists c :: c in queue && c.command == RequestLogout(key)) ==>
      LogoutPending(queue', key, tick) || exists i :: SettledAt(game, s, ran, tick, i, key)
  }

  lemma AllLogoutsSurvive<S>(game: Game<S>, s: S, queue: multiset<ScheduledCommand>, ran: Scheduled, tick: nat,
                             queue': multiset<ScheduledCommand>)
    requires IsDue(queue, multiset(ran), tick)
    requires queue' == queue - multiset(ran) + multiset(TickSchedules(game, s, ran, tick))
    ensures LogoutsKept(game, s, queue, ran, tick, queue')
  {
    forall key | exists c :: c in queue && c.command == RequestLogout(key)
      ensures LogoutPending(queue', key, tick) || exists i :: SettledAt(game, s, ran, tick, i, key)
    {
      LogoutsSurvive(game, s, queue, ran, tick, queue', key);
    }
  }

  // What one tick ran, in order.
  datatype Batch = Batch(tick: nat, ran: Scheduled)

  ghost function Commands(log: seq<Batch>): multiset<ScheduledCommand> {
    if log == [] then multiset{} else multiset(log[0].ran) + Commands(log[1..])
  }

  lemma {:induction false} CommandsOfAppend(log: seq<Batch>, b: Batch)
    ensures Commands(log + [b]) == Commands(log) + multiset(b.ran)
  {
    if log != [] {
      assert (log + [b])[1..] == log[1..] + [b];
      CommandsOfAppend(log[1..], b);
    }
  }

  // ---------------------------------------------------------------- the actor

  class WorldActor<S(!new)> {
    const game: Game<S>
    const queue: CommandQueue
    var state: S
    var tick: nat
    // Everything ever put in the queue, and everything ever taken out and run.
    ghost var enqueued: multiset<ScheduledCommand>
    ghost var executed: seq<Batch>

    constructor (game: Game<S>, state: S)
      requires Delays(game)
      ensures Valid() && fresh(queue) && this.game == game && this.state == state
      ensures tick == 0 && executed == [] && enqueued == multiset{}
    {
      this.game := game;
      this.state := state;
      tick := 0;
      queue := new CommandQueue();
      enqueued := multiset{};
      executed := [];
    }

    // Over every run: nothing is lost and nothing is run twice, no queued command is
    // overdue, and each command ran in its own tick - or, sent with no delay, in the next.
    ghost predicate Valid()
      reads this, queue
    {
      && Delays(game)
      && Ledger(queue.pending, enqueued, executed, tick)
    }

    // A message from a session: due in the next tick unless it names a delay.
    method Receive(command: WorldCommand, after: Option<nat>)
      requires Valid()
      modifies this`enqueued, queue
      ensures Valid() && tick == old(tick) && state == old(state) && executed == old(executed)
      ensures enqueued == old(enqueued)
                          + multiset{ScheduledCommand(tick + (if after.Some? then after.value else 1), command)}
      ensures old(queue.pending) <= queue.pending
    {
      var c := ScheduledCommand(tick + (if after.Some? then after.value else 1), command);
      queue.Push(c);
      enqueued := enqueued + multiset{c};
    }

    // Runs what is due, in order of its tick, while the handlers push. It ends because what
    // they push is never due yet.
    method Drain() returns (ran: Scheduled, ghost left: multiset<ScheduledCommand>, ghost scheduled: Scheduled)
      requires Delays(game)
      modifies this`state, queue
      ensures Draining(old(queue.pending), ran, left, scheduled, tick)
      ensures (state, scheduled) == RunAll(game, old(state), ran, tick)
      ensures queue.pending == left + multiset(scheduled)
      ensures forall c :: c in queue.pending ==> c.atTick > tick
    {
      ran, left, scheduled := [], queue.pending, [];
      while true
        invariant Draining(old(queue.pending), ran, left, scheduled, tick)
        invariant (state, scheduled) == RunAll(game, old(state), ran, tick)
        invariant queue.pending == left + multiset(scheduled)
        decreases |left|
      {
        var next := queue.PopDue(tick);
        if next.None? {
          return;
        }
        scheduled := RunDue(next.value, old(state), old(queue.pending), ran, left, scheduled);
        ran := ran + [next.value];
        left := left - multiset{next.value};
      }
    }

    // The command just popped, run after those before it.
    method RunDue(next: ScheduledCommand, ghost s: S, ghost start: multiset<ScheduledCommand>, ghost ran: Scheduled,
                  ghost left: multiset<ScheduledCommand>, ghost scheduled: Scheduled)
      returns (ghost scheduled': Scheduled)
      requires Delays(game) && Draining(start, ran, left, scheduled, tick)
      requires (state, scheduled) == RunAll(game, s, ran, tick)
      requires next.atTick <= tick && IsTop(left + multiset(scheduled), next)
      requires queue.pending == left + multiset(scheduled) - multiset{next}
      modifies this`state, queue
      ensures next in left
      ensures Draining(start, ran + [next], left - multiset{next}, scheduled', tick)
      ensures (state, scheduled') == RunAll(game, s, ran + [next], tick)
      ensures queue.pending == left - multiset{next} + multiset(scheduled')
    {
      RunOneMore(game, s, ran, next, tick);
      var more := RunOne(next);
      DrainStep(start, ran, left, scheduled, tick, next, more);
      scheduled' := scheduled + more;
    }

    method RunOne(next: ScheduledCommand) returns (more: Scheduled)
      requires Delays(game)
      modifies this`state, queue
      ensures (state, more) == Handle(game, old(state), next.command, tick)
      ensures AllAfter(more, tick) && queue.pending == old(queue.pending) + multiset(more)
    {
      HandleSchedulesTheFuture(game, state, next.command, tick);
      var (after, scheduled) := Handle(game, state, next.command, tick);
      state := after;
      more := scheduled;
      queue.PushAll(more);
    }

    method RunSystems()
      requires Delays(game)
      modifies this`state, queue
      ensures var (world, scheduled) := game.systems(old(state), tick);
              && state == world
              && queue.pending == old(queue.pending) + multiset(scheduled)
      ensures (forall c :: c in old(queue.pending) ==> c.atTick > tick) ==>
                forall c :: c in queue.pending ==> c.atTick > tick
    {
      var (world, scheduled) := game.systems(state, tick);
      state := world;
      queue.PushAll(scheduled);
    }

    // The commands of a tick, then the systems.
    method RunTick() returns (ran: Scheduled, ghost scheduled: Scheduled)
      requires Delays(game)
      modifies this`state, queue
      ensures InOrder(ran) && IsDue(old(queue.pending), multiset(ran), tick)
      ensures state == game.systems(RunAll(game, old(state), ran, tick).0, tick).0
      ensures scheduled == TickSchedules(game, old(state), ran, tick)
      ensures queue.pending == old(queue.pending) - multiset(ran) + multiset(scheduled)
      ensures forall c :: c in queue.pending ==> c.atTick > tick
    {
      ghost var left;
      ran, left, scheduled := Drain();
      DrainEnds(old(queue.pending), ran, left, scheduled, tick);
      scheduled := scheduled + game.systems(state, tick).1;
      RunSystems();
    }

    // One turn of the loop, after the messages that arrived before it.
    method Tick() returns (ran: Scheduled)
      requires Valid()
      modifies this, queue
      ensures Valid() && tick == old(tick) + 1
      ensures InOrder(ran) && IsDue(old(queue.pending), multiset(ran), tick)
      ensures executed == old(executed) + [Batch(tick, ran)]
      ensures forall c :: c in queue.pending ==> c.atTick > tick
      ensures state == game.systems(RunAll(game, old(state), ran, tick).0, tick).0
      ensures queue.pending == old(queue.pending) - multiset(ran) + multiset(TickSchedules(game, old(state), ran, tick))
      ensures LogoutsKept(game, old(state), old(queue.pending), ran, tick, queue.pending)
    {
      tick := tick + 1;
      ghost var pending, before := queue.pending, state;
      ghost var scheduled;
      ran, scheduled := RunTick();
      AllLogoutsSurvive(game, before, pending, ran, tick, queue.pending);
      LedgerOfATick(pending, enqueued, executed, tick, ran, scheduled, queue.pending);
      enqueued := enqueued + multiset(scheduled);
      executed := executed + [Batch(tick, ran)];
    }
  }

  ghost predicate OnTime(b: Batch, now: nat) {
    b.tick <= now && forall c :: c in b.ran ==> c.atTick <= b.tick <= c.atTick + 1
  }

  ghost predicate Draining(start: multiset<ScheduledCommand>, ran: Scheduled, left: multiset<ScheduledCommand>,
                           scheduled: Scheduled, tick: nat)
  {
    && InOrder(ran) && AllAfter(scheduled, tick)
    && start == multiset(ran) + left
    && (forall c :: c in ran ==> c.atTick <= tick)
    && (forall c, d :: c in ran && d in left ==> c.atTick <= d.atTick)
  }

  lemma DrainStep(start: multiset<ScheduledCommand>, ran: Scheduled, left: multiset<ScheduledCommand>,
                  scheduled: Scheduled, tick: nat, next: ScheduledCommand, more: Scheduled)
    requires Draining(start, ran, left, scheduled, tick) && AllAfter(more, tick)
    requires next.atTick <= tick && IsTop(left + multiset(scheduled), next)
    ensures next in left
    ensures Draining(start, ran + [next], left - multiset{next}, scheduled + more, tick)
    ensures left + multiset(scheduled) - multiset{next} + multiset(more)
         == left - multiset{next} + multiset(scheduled + more)
  {
    NextIsLeft(left, scheduled, next, tick);
    OrderGrows(ran, next);
    assert multiset(ran + [next]) == multiset(ran) + multiset{next};
  }

  lemma OrderGrows(ran: Scheduled, next: ScheduledCommand)
    requires InOrder(ran) && forall c :: c in ran ==> c.atTick <= next.atTick
    ensures InOrder(ran + [next])
  {
    forall i, j | 0 <= i < j < |ran| + 1 ensures (ran + [next])[i].atTick <= (ran + [next])[j].atTick {
      assert (ran + [next])[i] in ran;
    }
  }

  lemma DrainEnds(start: multiset<ScheduledCommand>, ran: Scheduled, left: multiset<ScheduledCommand>,
                  scheduled: Scheduled, tick: nat)
    requires Draining(start, ran, left, scheduled, tick)
    requires forall d :: d in left + multiset(scheduled) ==> d.atTick > tick
    ensures IsDue(start, multiset(ran), tick)
    ensures left + multiset(scheduled) == start - multiset(ran) + multiset(scheduled)
  {
    assert forall d :: d in left ==> d in left + multiset(scheduled);
    assert start - multiset(ran) == left;
  }

  // A due command cannot be one that the handlers have just scheduled.
  lemma NextIsLeft(left: multiset<ScheduledCommand>, scheduled: Scheduled, next: ScheduledCommand, tick: nat)
    requires AllAfter(scheduled, tick) && next.atTick <= tick && IsTop(left + multiset(scheduled), next)
    ensures next in left && forall d :: d in left ==> next.atTick <= d.atTick
    ensures left + multiset(scheduled) - multiset{next} == left - multiset{next} + multiset(scheduled)
  {
    assert next !in multiset(scheduled);
    assert forall d :: d in left ==> d in left + multiset(scheduled);
  }

  // What is enqueued is queued or run, what is queued is not overdue, what ran ran on time.
  ghost predicate Ledger(pending: multiset<ScheduledCommand>, enqueued: multiset<ScheduledCommand>,
                         executed: seq<Batch>, now: nat)
  {
    && enqueued == pending + Commands(executed)
    && (forall c :: c in pending ==> c.atTick >= now)
    && (forall b :: b in executed ==> OnTime(b, now))
  }

  lemma LedgerOfATick(pending: multiset<ScheduledCommand>, enqueued: multiset<ScheduledCommand>,
                      executed: seq<Batch>, tick: nat, ran: Scheduled, scheduled: Scheduled,
                      pending': multiset<ScheduledCommand>)
    requires tick > 0 && Ledger(pending, enqueued, executed, tick - 1)
    requires IsDue(pending, multiset(ran), tick)
    requires pending' == pending - multiset(ran) + multiset(scheduled)
    requires forall c :: c in pending' ==> c.atTick > tick
    ensures Ledger(pending', enqueued + multiset(scheduled), executed + [Batch(tick, ran)], tick)
  {
    CommandsOfAppend(executed, Batch(tick, ran));
    assert forall c :: c in ran ==> c in multiset(ran) && c in pending;
  }
}
