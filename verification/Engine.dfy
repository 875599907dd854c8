/** The engine itself: a buffer, a breaker, a publisher, a checkpoint file and a subscriber. Its ghost
    history is a run of the engine state machine, so what holds over all runs holds of every engine. */
module Engine {
  import opened Wrappers
  import opened Rows
  import opened Backoff
  import opened Circuits
  import opened StateStore
  import opened Publishing
  import opened Subscription
  import opened EngineModel
  import opened EngineOrder
  import opened EngineTurns

  /** The backoff of a flush: one second, then two. */
  const PUBLISH_BACKOFF := BackoffConfig(1_000_000_000, 8_000_000_000)

  lemma NoWaits()
    ensures Sum([]) == 0 && Delays(PUBLISH_BACKOFF, 0) == []
  {
  }

  /** A flush that fails has waited one second and then two. */
  lemma FlushWaits()
    ensures Delays(PUBLISH_BACKOFF, ATTEMPTS - 1) == [1_000_000_000, 2_000_000_000]
    ensures Sum([1_000_000_000, 2_000_000_000]) == 3_000_000_000
  {
    assert Delays(PUBLISH_BACKOFF, 1) == [1_000_000_000];
    assert [1_000_000_000, 2_000_000_000][..1] == [1_000_000_000];
    assert Sum([1_000_000_000]) == 1_000_000_000;
  }

  class Engine {
    var buffer: seq<ChangeEvent>
    var state: ReplicationState
    var clock: nat
    const batchSize: int
    const slotName: string
    const cloudBreaker: CircuitBreaker
    const publisher: Publisher
    const stateStore: Store
    const subscriber: Subscriber

    ghost var begin: World
    ghost var steps: seq<Step>
    ghost var world: World

    /** The ghost history is a run of the state machine that ends in `world`. */
    ghost predicate Recorded()
      reads this
    {
      Initial(begin) && CanRun(begin, steps) && Run(begin, steps) == world
    }

    /** The real fields are those of `world`. */
    ghost predicate Tied()
      reads this, cloudBreaker, publisher, publisher.pool, stateStore
    {
      && publisher.pool != null && publisher.batchSize > 0 && Shaped(publisher.pool.db)
      && world.buffer == buffer && world.mem == state && world.now == clock
      && world.breaker == cloudBreaker.View() && world.cloud == publisher.pool.db
      && world.disk == stateStore.View() && world.disk.saving.None?
      && world.chunk == publisher.batchSize && world.slot == slotName
    }

    ghost predicate Valid()
      reads this, cloudBreaker, publisher, publisher.pool, stateStore
    {
      Recorded() && Tied()
    }

    constructor (batchSize: int, slotName: string, publisher: Publisher, stateStore: Store, subscriber: Subscriber,
                 loaded: ReplicationState)
      requires publisher.pool != null && publisher.batchSize > 0 && Shaped(publisher.pool.db)
      requires stateStore.View().saving.None? && !stateStore.View().complete
      requires LoadFrom(stateStore.main) == Loaded(loaded)
      ensures Valid() && fresh(cloudBreaker)
      ensures this.publisher == publisher && this.stateStore == stateStore && this.subscriber == subscriber
      ensures this.batchSize == batchSize && this.slotName == slotName
      ensures buffer == [] && state == loaded && world == begin && steps == []
      ensures cloudBreaker.View() == Fresh(5, 300_000_000_000)
    {
      this.batchSize, this.slotName := batchSize, slotName;
      this.publisher, this.stateStore, this.subscriber := publisher, stateStore, subscriber;
      cloudBreaker := new CircuitBreaker(DEFAULT_THRESHOLD, DEFAULT_INTERVAL);
      buffer, state, clock := [], loaded, 0;
      new;
      begin := World(0, [], 0, Idle, [], publisher.batchSize, slotName, cloudBreaker.View(), publisher.pool.db, [],
                     loaded, stateStore.View(), 0, 0, 0, 0);
      world, steps := begin, [];
    }

    ghost method Advance(s: Step)
      requires Recorded() && Enabled(world, s)
      modifies this`steps, this`world
      ensures Recorded() && world == After(old(world), s) && steps == old(steps) + [s]
    {
      hide Enabled, After, Initial;
      RunExtends(begin, steps, s);
      steps := steps + [s];
      world := After(world, s);
    }

    /** Reads the clock, which has moved on by some amount. */
    method Now() returns (t: nat)
      requires Recorded() && world.now == clock
      modifies this`clock, this`steps, this`world
      ensures Recorded() && t == clock >= old(clock)
      ensures world == old(world).(now := clock) && Quietly(old(steps), steps)
    {
      hide Initial, CanRun, Run;
      var drift: int := *;
      var elapsed: nat := if drift < 0 then 0 else drift;
      clock := clock + elapsed;
      Advance(Tick(elapsed));
      t := clock;
    }

    /** The receiving arm of the loop's select. */
    method Enqueue(event: ChangeEvent)
      requires Valid()
      modifies this`buffer, this`steps, this`world
      ensures Valid() && buffer == old(buffer) + [event]
      ensures world == old(world).(received := old(world).received + [event], buffer := buffer)
      ensures steps == old(steps) + [Receive(event)]
    {
      hide Initial, CanRun, Run;
      buffer := buffer + [event];
      Advance(Receive(event));
    }

    /** Takes the whole buffer as a batch. */
    method TakeBatch() returns (batch: seq<ChangeEvent>)
      requires Valid() && world.phase.Idle? && buffer != []
      modifies this`buffer, this`steps, this`world
      ensures Valid() && batch == old(buffer) && buffer == []
      ensures world == old(world).(phase := Taken(batch), buffer := [])
      ensures steps == old(steps) + [Take]
    {
      hide Initial, CanRun, Run;
      batch := buffer;
      buffer := [];
      Advance(Take);
    }

    /** Asks the breaker; when it refuses, the batch goes back in front of the buffer. */
    method AskBreaker(batch: seq<ChangeEvent>) returns (allowed: bool)
      requires Valid() && world.phase == Taken(batch)
      modifies this`buffer, this`clock, this`steps, this`world, cloudBreaker
      ensures Valid() && state == old(state)
      ensures world.received == old(world.received) && world.flushed == old(world.flushed)
      ensures world.calls == old(world.calls)
      ensures allowed ==> world.phase == Trying(batch, 0) && buffer == old(buffer) && Quietly(old(steps), steps)
      ensures !allowed ==> world.phase.Idle? && buffer == batch + old(buffer)
      ensures !allowed ==> old(steps) < steps && steps[|steps| - 1] == Block && Quietly(old(steps), steps[..|steps| - 1])
      ensures Grants(old(cloudBreaker.View()), old(clock)) ==> allowed
    {
      hide Initial, CanRun, Run;
      var now := Now();
      allowed := cloudBreaker.Allow(now);
      if allowed {
        Advance(Grant);
      } else {
        buffer := batch + buffer;
        Advance(Block);
        assert steps[..|steps| - 1] + [Block] == steps;
      }
    }

    /** One call of Publish on the batch in flight. */
    method CallPublish(batch: seq<ChangeEvent>, ghost tries: nat) returns (ok: bool)
      requires Valid() && world.phase == Trying(batch, tries) && tries < ATTEMPTS
      modifies this`steps, this`world, publisher.pool
      ensures Valid() && Quietly(old(steps), steps)
      ensures world.phase == if ok then Sent(batch) else Trying(batch, tries + 1)
      ensures world.received == old(world.received) && world.flushed == old(world.flushed)
      ensures world.calls == old(world.calls) + 1
      ensures publisher.pool.reliable ==> (ok <==> ApplyAll(batch, old(publisher.pool.db)).Some?)
      ensures ok ==> ApplyAll(batch, old(publisher.pool.db)) == Some(publisher.pool.db)
    {
      hide Initial, CanRun, Run, Shaped, ApplyAll;
      ghost var n;
      ok, n := publisher.Publish(batch);
      Advance(Attempt(n, ok, publisher.pool.db));
      assert batch[..|batch|] == batch;
    }

    /** Waits for `delay`, or less when the context can end and does. */
    method Wait(delay: nat, canEnd: bool) returns (cancelled: bool)
      requires Valid()
      modifies this`clock, this`steps, this`world
      ensures Valid() && world == old(world).(now := clock) && Quietly(old(steps), steps)
      ensures old(clock) <= clock <= old(clock) + delay && (!cancelled ==> clock == old(clock) + delay)
      ensures cancelled ==> canEnd
    {
      hide Initial, CanRun, Run, Shaped;
      cancelled := *;
      cancelled := cancelled && canEnd;
      var cut: int := *;
      var elapsed: nat := if cancelled && 0 <= cut < delay then cut else delay;
      clock := clock + elapsed;
      Advance(Tick(elapsed));
    }

    /** Calls Publish up to three times with a backoff between; a context that can end may cut a wait short. */
    method PublishWithRetry(batch: seq<ChangeEvent>, canEnd: bool)
      returns (result: Outcome, ghost outcomes: seq<bool>, waits: seq<nat>)
      requires Valid() && world.phase == Trying(batch, 0)
      modifies this`clock, this`steps, this`world, publisher.pool
      ensures Valid() && buffer == old(buffer) && state == old(state) && Quietly(old(steps), steps)
      ensures world.received == old(world.received) && world.flushed == old(world.flushed)
      ensures Retried(PUBLISH_BACKOFF, ATTEMPTS, outcomes, result, waits) && !result.Unfinished?
      ensures result.Cancelled? ==> canEnd
      ensures world.calls == old(world.calls) + |outcomes|
      ensures clock <= old(clock) + Sum(waits) && (!result.Cancelled? ==> clock == old(clock) + Sum(waits))
      ensures result.Succeeded? ==> world.phase == Sent(batch)
      ensures !result.Succeeded? ==> world.phase == Trying(batch, |outcomes|)
      ensures publisher.pool.reliable && ApplyAll(batch, old(publisher.pool.db)).Some? ==>
        result.Succeeded? && |outcomes| == 1 && publisher.pool.db == ApplyAll(batch, old(publisher.pool.db)).value
    {
      hide Recorded, Shaped, Sum, Delay, ApplyAll;
      result, outcomes, waits := Unfinished, [], [];
      NoWaits();
      while true
        invariant Valid() && buffer == old(buffer) && state == old(state) && Quietly(old(steps), steps)
        invariant world.received == old(world.received) && world.flushed == old(world.flushed)
        invariant |outcomes| == |waits| < ATTEMPTS && waits == Delays(PUBLISH_BACKOFF, |waits|)
        invariant forall i :: 0 <= i < |outcomes| ==> !outcomes[i]
        invariant world.phase == Trying(batch, |outcomes|)
        invariant world.calls == old(world.calls) + |outcomes| && clock == old(clock) + Sum(waits)
        invariant |outcomes| == 0 ==> publisher.pool.db == old(publisher.pool.db)
        invariant publisher.pool.reliable && ApplyAll(batch, old(publisher.pool.db)).Some? ==> |outcomes| == 0
        decreases ATTEMPTS - |waits|
      {
        var attempt := |waits|;
        var ok := CallPublish(batch, attempt);
        outcomes := outcomes + [ok];
        if ok { return Succeeded, outcomes, waits; }
        if attempt + 1 >= ATTEMPTS { return Exhausted, outcomes, waits; }
        var delay := Delay(PUBLISH_BACKOFF, attempt);
        waits := waits + [delay];
        SumOfDelays(PUBLISH_BACKOFF, attempt + 1);
        var cancelled := Wait(delay, canEnd);
        if cancelled { return Cancelled, outcomes, waits; }
      }
    }

    /** The failure branch of flush. */
    method RecordBatchFailure(batch: seq<ChangeEvent>)
      requires Valid() && world.phase.Trying? && world.phase.batch == batch && world.phase.tries > 0
      modifies this`buffer, this`state, this`clock, this`steps, this`world, cloudBreaker
      ensures Valid() && world.phase.Idle? && buffer == batch + old(buffer)
      ensures state == old(state).(eventsFailed := old(state).eventsFailed + |batch|)
      ensures world.received == old(world.received) && world.flushed == old(world.flushed)
      ensures world.calls == old(world.calls)
      ensures old(steps) < steps && steps[|steps| - 1] == GiveUp && Quietly(old(steps), steps[..|steps| - 1])
    {
      hide Initial, CanRun, Run, Shaped;
      var now := Now();
      cloudBreaker.RecordFailure(now);
      buffer := batch + buffer;
      state := state.(eventsFailed := state.eventsFailed + |batch|);
      Advance(GiveUp);
      assert steps[..|steps| - 1] + [GiveUp] == steps;
    }

    /** The success branch of flush, up to the in-memory state. */
    method RecordBatchSuccess(batch: seq<ChangeEvent>)
      requires Valid() && world.phase == Sent(batch)
      modifies this`state, this`clock, this`steps, this`world, cloudBreaker, subscriber`lastAckedLSN
      ensures Valid() && world.phase.Idle? && buffer == old(buffer)
      ensures state == FlushedState(old(state), batch, slotName, clock)
      ensures world.received == old(world.received) && world.flushed == old(world.flushed) + |batch|
      ensures subscriber.lastAckedLSN == old(subscriber.lastAckedLSN) || subscriber.lastAckedLSN == MaxLsn(batch)
      ensures subscriber.reliable && subscriber.connected ==>
        subscriber.lastAckedLSN >= old(subscriber.lastAckedLSN) && subscriber.lastAckedLSN >= MaxLsn(batch)
      ensures old(steps) < steps && steps[|steps| - 1] == Succeed && Quietly(old(steps), steps[..|steps| - 1])
    {
      hide Initial, CanRun, Run, Shaped, MaxLsn, LatestTime;
      cloudBreaker.RecordSuccess();
      var maxLSN, latestTimestamp := Highest(batch);
      if maxLSN > 0 { var _ := subscriber.Acknowledge(maxLSN); }
      var now := Now();
      state := state.(lastLsn := maxLSN, lastFlushTime := now,
                      eventsProcessed := state.eventsProcessed + |batch|, slotName := slotName);
      if latestTimestamp != 0 {
        var lag: int := now as int - latestTimestamp as int;
        state := state.(currentLag := lag);
      }
      Advance(Succeed);
      assert steps[..|steps| - 1] + [Succeed] == steps;
    }

    /** Saves a snapshot of the state; a failed save leaves the checkpoint as it was. */
    method SaveState() returns (ok: bool)
      requires Valid()
      modifies this`steps, this`world, stateStore
      ensures Valid() && world == old(world).(disk := world.disk) && Quietly(old(steps), steps)
      ensures ok ==> stateStore.main == Some(Whole(state))
      ensures !ok ==> stateStore.main == old(stateStore.main)
      ensures stateStore.reliable ==> ok
    {
      hide Initial, Shaped;
      ghost var ops;
      ok, ops := stateStore.Save(state);
      RunSave(begin, steps, ops);
      steps := steps + Checkpoints(ops);
      world := world.(disk := stateStore.View());
    }

    /** The end of a successful flush: the state, the acknowledgement, the checkpoint. */
    method Finish(batch: seq<ChangeEvent>)
      requires Valid() && world.phase == Sent(batch)
      modifies this`state, this`clock, this`steps, this`world, cloudBreaker, subscriber`lastAckedLSN, stateStore
      ensures Valid() && world.phase.Idle? && buffer == old(buffer)
      ensures state == FlushedState(old(state), batch, slotName, clock)
      ensures world.received == old(world.received) && world.flushed == old(world.flushed) + |batch|
      ensures FlushTail(old(steps), steps, Flushed)
      ensures subscriber.lastAckedLSN == old(subscriber.lastAckedLSN) || subscriber.lastAckedLSN == MaxLsn(batch)
      ensures subscriber.reliable && subscriber.connected ==>
        subscriber.lastAckedLSN >= old(subscriber.lastAckedLSN) && subscriber.lastAckedLSN >= MaxLsn(batch)
      ensures stateStore.reliable ==> stateStore.main == Some(Whole(state))
    {
      hide Recorded, Shaped, MaxLsn, LatestTime;
      RecordBatchSuccess(batch);
      ghost var end := |steps| - 1;
      var _ := SaveState();
      TailHere(old(steps), steps, end, Flushed);
    }

    /** What flush does with the batch it has taken. */
    method Send(batch: seq<ChangeEvent>, canEnd: bool) returns (r: FlushResult)
      requires Valid() && world.phase == Taken(batch)
      modifies this`buffer, this`state, this`clock, this`steps, this`world
      modifies cloudBreaker, publisher.pool, stateStore, subscriber`lastAckedLSN
      ensures Valid() && world.phase.Idle? && world.received == old(world.received)
      ensures FlushTail(old(steps), steps, r)
      ensures r.Flushed? ==> buffer == old(buffer) && world.flushed == old(world).flushed + |batch|
                             && state == FlushedState(old(state), batch, slotName, clock)
      ensures !r.Flushed? ==> buffer == batch + old(buffer) && world.flushed == old(world).flushed
      ensures r.Blocked? ==> state == old(state) && world.calls == old(world).calls
      ensures r.PublishFailed? ==>
        && state == old(state).(eventsFailed := old(state).eventsFailed + |batch|)
        && old(world).calls < world.calls <= old(world).calls + ATTEMPTS
        && (!canEnd ==> world.calls == old(world).calls + ATTEMPTS)
      ensures Grants(old(cloudBreaker.View()), old(clock)) ==> !r.Blocked?
      ensures (publisher.pool.reliable && !r.Blocked? && ApplyAll(batch, old(publisher.pool.db)).Some?) ==>
        r.Flushed? && publisher.pool.db == ApplyAll(batch, old(publisher.pool.db)).value
      ensures subscriber.lastAckedLSN == old(subscriber.lastAckedLSN)
              || (r.Flushed? && subscriber.lastAckedLSN == MaxLsn(batch))
      ensures r.Flushed? && subscriber.reliable && subscriber.connected ==>
        subscriber.lastAckedLSN >= old(subscriber.lastAckedLSN) && subscriber.lastAckedLSN >= MaxLsn(batch)
      ensures r.Flushed? && stateStore.reliable ==> stateStore.main == Some(Whole(state))
      ensures !r.Flushed? ==> stateStore.main == old(stateStore.main)
    {
      hide Recorded, Shaped, MaxLsn, LatestTime, Sum, Delays, ApplyAll, Grants, FlushTail, FlushedState;
      var allowed := AskBreaker(batch);
      if !allowed {
        TailHere(old(steps), steps, |steps| - 1, Blocked);
        return Blocked;
      }
      ghost var granted := steps;
      var result, _, _ := PublishWithRetry(batch, canEnd);
      ghost var tried := steps;
      if !result.Succeeded? {
        RecordBatchFailure(batch);
        TailHere(tried, steps, |steps| - 1, PublishFailed);
        TailAfterQuiet(old(steps), tried, steps, PublishFailed);
        return PublishFailed;
      }
      Finish(batch);
      TailAfterQuiet(old(steps), tried, steps, Flushed);
      r := Flushed;
    }

    /** Publishes all buffered events. On success nothing is left to send; otherwise the buffer is as it was, in
        order. The batch counts as failed exactly when Publish was called and did not succeed. With a reliable
        cloud, a granting breaker and a buffer that can be applied, it succeeds. */
    method Flush(canEnd: bool) returns (r: FlushResult)
      requires Valid() && world.phase.Idle?
      modifies this`buffer, this`state, this`clock, this`steps, this`world
      modifies cloudBreaker, publisher.pool, stateStore, subscriber`lastAckedLSN
      ensures Valid() && world.phase.Idle? && world.received == old(world.received)
      ensures if old(buffer) == [] then steps == old(steps) && r.Flushed? else FlushTurn(old(steps), steps, r)
      ensures r.Flushed? ==> buffer == [] && state.eventsProcessed == old(state).eventsProcessed + |old(buffer)|
                             && world.flushed == old(world).flushed + |old(buffer)|
                             && state.eventsFailed == old(state).eventsFailed
      ensures !r.Flushed? ==> buffer == old(buffer) && old(buffer) != [] && world.flushed == old(world).flushed
      ensures r.Blocked? ==> state == old(state) && world.calls == old(world).calls
      ensures r.PublishFailed? ==>
        && state == old(state).(eventsFailed := old(state).eventsFailed + |old(buffer)|)
        && old(world).calls < world.calls <= old(world).calls + ATTEMPTS
        && (!canEnd ==> world.calls == old(world).calls + ATTEMPTS)
      ensures Grants(old(cloudBreaker.View()), old(clock)) ==> !r.Blocked?
      ensures (publisher.pool.reliable && !r.Blocked? && ApplyAll(old(buffer), old(publisher.pool.db)).Some?) ==>
        r.Flushed? && publisher.pool.db == ApplyAll(old(buffer), old(publisher.pool.db)).value
      ensures subscriber.lastAckedLSN == old(subscriber.lastAckedLSN)
              || (r.Flushed? && subscriber.lastAckedLSN == MaxLsn(old(buffer)))
      ensures r.Flushed? && subscriber.reliable && subscriber.connected ==>
        subscriber.lastAckedLSN >= old(subscriber.lastAckedLSN) && subscriber.lastAckedLSN >= MaxLsn(old(buffer))
      ensures r.Flushed? && old(buffer) != [] && stateStore.reliable ==> stateStore.main == Some(Whole(state))
      ensures !r.Flushed? ==> stateStore.main == old(stateStore.main)
    {
      hide Recorded, Shaped, MaxLsn, LatestTime, ApplyAll, Grants, FlushTail, FlushTurn;
      if |buffer| == 0 {
        NothingToFlush(publisher.pool.db);
        return Flushed;
      }
      var batch := TakeBatch();
      r := Send(batch, canEnd);
      TurnFromTail(old(steps), steps, r);
    }

    /** Flush, save, close. When it reports no error, everything taken off the channel is committed in
        the cloud, the buffer is empty and the saved state is the one in memory. */
    method ShutdownWork() returns (ok: bool)
      requires Valid() && world.phase.Idle?
      modifies this`buffer, this`state, this`clock, this`steps, this`world
      modifies cloudBreaker, publisher.pool, stateStore, subscriber
      ensures Valid() && world.phase.Idle? && world.received == old(world.received) && old(steps) <= steps
      ensures ok ==> buffer == [] && stateStore.main == Some(Whole(state))
      ensures ok ==> world.flushed == |world.received| && world.cloud == publisher.pool.db
      ensures ok ==> CommittedUpTo(begin.cloud, world, |world.received|)
      ensures !subscriber.connected && !subscriber.streaming
      ensures stateStore.reliable ==> stateStore.main == Some(Whole(state))
      ensures (&& stateStore.reliable && subscriber.reliable && publisher.pool.reliable
               && Grants(old(cloudBreaker.View()), old(clock))
               && ApplyAll(old(buffer), old(publisher.pool.db)).Some?) ==> ok
    {
      hide Recorded, Shaped, MaxLsn, CommittedUpTo, ApplyAll, Grants;
      var flushed := Flush(true);
      var saved := SaveState();
      var closed := subscriber.Close();
      ok := flushed.Flushed? && saved && closed;
      if ok { EngineDrained(); }
    }

    lemma EngineDrained()
      requires Valid() && world.phase.Idle? && buffer == []
      ensures world.flushed == |world.received| && CommittedUpTo(begin.cloud, world, |world.received|)
    {
      Drained(begin, steps);
    }

    /** The main loop over what its select yields until the engine is told to stop or the channel closes. Each
        input takes the engine from one world to the next by its own steps, with a flush exactly when one is due. */
    method Loop(inputs: seq<Input>) returns (ok: bool, ghost worlds: seq<World>, ghost parts: seq<seq<Step>>)
      requires Valid() && world.phase.Idle?
      modifies this`buffer, this`state, this`clock, this`steps, this`world
      modifies cloudBreaker, publisher.pool, stateStore, subscriber
      ensures Valid() && world.phase.Idle?
      ensures world.received == old(world.received) + Arrivals(inputs)
      ensures |worlds| == |inputs| + 1 && |parts| == |inputs| && worlds[0] == old(world)
      ensures forall i :: 0 <= i < |inputs| ==> Turn(worlds[i], parts[i], inputs[i], batchSize, worlds[i + 1])
      ensures old(steps) + Flat(parts) <= steps
      ensures ok ==> buffer == [] && stateStore.main == Some(Whole(state)) && world.flushed == |world.received|
      ensures ok ==> CommittedUpTo(begin.cloud, world, |world.received|) && world.cloud == publisher.pool.db
    {
      hide Recorded, Shaped, MaxLsn, CommittedUpTo, Turn;
      worlds, parts := [world], [];
      assert old(steps) + Flat([]) == old(steps);
      for i := 0 to |inputs|
        invariant Valid() && world.phase.Idle?
        invariant world.received == old(world.received) + Arrivals(inputs[..i])
        invariant |worlds| == i + 1 && |parts| == i && worlds[0] == old(world) && worlds[i] == world
        invariant forall k :: 0 <= k < i ==> Turn(worlds[k], parts[k], inputs[k], batchSize, worlds[k + 1])
        invariant old(steps) + Flat(parts) == steps
      {
        assert inputs[..i + 1][..i] == inputs[..i];
        ghost var before := steps;
        OneInput(inputs[i]);
        ghost var part := steps[|before|..];
        assert (parts + [part])[..i] == parts;
        assert before + part == steps;
        parts := parts + [part];
        worlds := worlds + [world];
      }
      assert inputs[..|inputs|] == inputs;
      ok := ShutdownWork();
    }

    /** One arm of the loop's select. */
    method OneInput(input: Input)
      requires Valid() && world.phase.Idle?
      modifies this`buffer, this`state, this`clock, this`steps, this`world
      modifies cloudBreaker, publisher.pool, stateStore, subscriber`lastAckedLSN
      ensures Valid() && world.phase.Idle?
      ensures world.received == old(world.received) + (match input case Arrival(e) => [e] case Ticker => [])
      ensures old(steps) <= steps && Turn(old(world), steps[|old(steps)|..], input, batchSize, world)
    {
      hide Shaped, MaxLsn, Initial, CanRun, Run, FlushPart, ApplyAll, Grants;
      match input {
        case Arrival(event) =>
          Enqueue(event);
          ghost var received := steps;
          if |buffer| >= batchSize {
            var r := Flush(false);
            DueFlush(received, steps, r, old(world).(buffer := old(buffer) + [event]), world);
          } else {
            NoFlush(steps, old(world).(buffer := buffer), world);
          }
          assert steps[|old(steps)|..][1..] == steps[|received|..];
        case Ticker =>
          if |buffer| > 0 {
            var r := Flush(false);
            DueFlush(old(steps), steps, r, old(world), world);
          } else {
            NoFlush(steps, old(world), world);
          }
      }
      assert steps == old(steps) + steps[|old(steps)|..];
      RunOn(begin, old(steps), steps[|old(steps)|..]);
    }
  }

  lemma NothingToFlush(db: Db)
    ensures ApplyAll([], db) == Some(db) && MaxLsn([]) == 0
  {
  }

  lemma DueFlush(a: seq<Step>, b: seq<Step>, r: FlushResult, w: World, w': World)
    requires FlushTurn(a, b, r) && FlushLeaves(w, r, w')
    ensures FlushPart(w, b[|a|..], true, w')
  {
    FlushTurnTail(a, b, r);
  }

  lemma NoFlush(steps: seq<Step>, w: World, w': World)
    requires w'.buffer == w.buffer
    ensures FlushPart(w, steps[|steps|..], false, w')
  {
  }

  /** The highest LSN and the latest timestamp of a batch. */
  method Highest(batch: seq<ChangeEvent>) returns (maxLSN: nat, latestTimestamp: nat)
    ensures maxLSN == MaxLsn(batch) && latestTimestamp == LatestTime(batch)
  {
    maxLSN, latestTimestamp := 0, 0;
    for i := 0 to |batch|
      invariant maxLSN == MaxLsn(batch[..i]) && latestTimestamp == LatestTime(batch[..i])
    {
      assert batch[..i + 1][..i] == batch[..i];
      if batch[i].lsn > maxLSN { maxLSN := batch[i].lsn; }
      if batch[i].timestamp > latestTimestamp { latestTimestamp := batch[i].timestamp; }
    }
    assert batch[..|batch|] == batch;
  }

  /** The events that arrive, in order. */
  function Arrivals(inputs: seq<Input>): seq<ChangeEvent>
    decreases |inputs|
  {
    if inputs == [] then []
    else Arrivals(inputs[..|inputs| - 1])
         + match inputs[|inputs| - 1] case Arrival(e) => [e] case Ticker => []
  }

  /** An idle engine with an empty buffer has committed everything it received: the cloud is where it
      started plus a sequence of received events that begins, repeats aside, with all of them in order. */
  lemma {:induction false} Drained(w: World, steps: seq<Step>)
    requires Initial(w) && CanRun(w, steps)
    requires Run(w, steps).phase.Idle? && Run(w, steps).buffer == []
    ensures
      var w' := Run(w, steps);
      w'.flushed == |w'.received| && CommittedUpTo(w.cloud, w', |w'.received|)
  {
    hide CommittedUpTo;
    Conservation(w, steps);
    ProcessedIsCommitted(w, steps);
  }
}
