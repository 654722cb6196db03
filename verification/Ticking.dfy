/** What a tick and a synchronous drain do to all the runs of the store: which are advanced and how often,
    with whose results, and what they publish. */
module Ticking {
  import opened Wrappers
  import opened Workflow
  import opened EngineSpec
  import opened EngineFacts
  import opened Engine

  /** A batch size of zero or none at all means the configured one. */
  lemma LimitIs(env: Env, n: nat)
    ensures Limit(env, None) == env.batchSize && Limit(env, Some(0)) == env.batchSize
    ensures n > 0 ==> Limit(env, Some(n)) == n
  {}

  /* ---- one call on the store ---- */

  lemma BodyMatters(env: Env, run: RunRow, now: Time, body: BodyResult, other: BodyResult, undo: UndoResult)
    requires !Due(run, now)
    ensures Advance(env, run, now, body, undo) == Advance(env, run, now, other, undo)
  {}

  lemma UndoMatters(env: Env, run: RunRow, now: Time, body: BodyResult, undo: UndoResult, other: UndoResult)
    requires run.status.Compensating? ==> forall top: nat :: !TopIs(run, top)
    ensures Advance(env, run, now, body, undo) == Advance(env, run, now, body, other)
  {
    assert TopSuccess(run.steps).Some? ==> TopIs(run, TopSuccess(run.steps).value);
  }

  /** A call is an advance of that run alone, in which a due step gives what its body does under its next
      attempt number, and a compensation what it does to the top success under its next. */
  lemma CallUses(env: Env, db: Db, r: nat, now: Time, world: World, body: BodyResult, undo: UndoResult)
    requires r < |db.runs|
    requires var run := db.runs[r];
             Due(run, now) ==> body == world.body(r, run.index, run.steps[run.index].attempt + 1)
    requires var run := db.runs[r];
             run.status.Compensating? ==>
               forall top: nat :: TopIs(run, top) ==> undo == world.undo(r, top, run.steps[top].attempt + 1)
    ensures var e := Advance(env, db.runs[r], now, body, undo);
            var (next, outcome) := AdvanceDb(env, db, r, now, world);
            next.runs == db.runs[r := e.run] && outcome == e.outcome
  {
    var run := db.runs[r];
    var theirs, undone := BodyFor(world, r, run), UndoFor(world, r, run);
    if !Due(run, now) { BodyMatters(env, run, now, body, theirs, undo); }
    if run.status.Compensating? && TopSuccess(run.steps).Some? {
      assert TopIs(run, TopSuccess(run.steps).value);
    } else {
      UndoMatters(env, run, now, theirs, undo, undone);
    }
  }

  /** The event a run announces when its status goes from one to the other, if any. */
  predicate Announces(was: RunStatus, becomes: RunStatus, e: Event) {
    Active(was) &&
    match e
    case WorkflowCompleted => becomes == RunStatus.Success
    case WorkflowFailed => becomes == RunStatus.Failed
    case WorkflowCancelled => becomes == RunStatus.Cancelled
  }

  /** A call publishes one event if it ends the run, by the status it ends with, and none otherwise. */
  lemma CallPublishes(env: Env, db: Db, r: nat, now: Time, world: World)
    requires r < |db.runs|
    ensures var next := AdvanceDb(env, db, r, now, world).0;
            && |next.runs| == |db.runs| && (forall q :: 0 <= q < |db.runs| && q != r ==> next.runs[q] == db.runs[q])
            && (forall e :: Announces(db.runs[r].status, next.runs[r].status, e) ==>
                  next.events == db.events + [(r, e)])
            && ((forall e :: !Announces(db.runs[r].status, next.runs[r].status, e)) ==> next.events == db.events)
  {
    var run := db.runs[r];
    var body, undo := BodyFor(world, r, run), UndoFor(world, r, run);
    var log := Advance(env, run, now, body, undo).log;
    CallEnds(env, run, now, body, undo);
    if |log| == 1 && log[0].Published? {
      assert log[..0] == [] && EventsOf(r, log) == [(r, log[0].event)];
      assert Announces(run.status, Advance(env, run, now, body, undo).run.status, log[0].event);
    } else {
      NoEvents(r, log);
    }
  }

  /** What a call published is what its run's change of status announces. */
  ghost predicate Tells(run: RunRow, effect: Effect) {
    if |effect.log| == 1 && effect.log[0].Published? then
      forall e :: Announces(run.status, effect.run.status, e) <==> e == effect.log[0].event
    else
      && (forall e :: !Announces(run.status, effect.run.status, e))
      && forall k :: 0 <= k < |effect.log| ==> !effect.log[k].Published?
  }

  lemma FinishTells(run: RunRow, finished: RunRow, status: RunStatus, now: Time)
    requires finished.status == run.status && Terminal(status)
    ensures Tells(run, Finish(finished, status, now))
  {}

  lemma RunStepTells(env: Env, run: RunRow, now: Time, body: BodyResult)
    requires run.index < |run.steps|
    ensures Tells(run, RunStep(env, run, now, body))
  {}

  lemma UndoTells(env: Env, run: RunRow, i: nat, now: Time, undo: UndoResult)
    requires i < |run.steps|
    ensures Tells(run, UndoStep(env, run, i, now, undo))
  {}

  lemma CallEnds(env: Env, run: RunRow, now: Time, body: BodyResult, undo: UndoResult)
    ensures Tells(run, Advance(env, run, now, body, undo))
  {
    if run.status.Compensating? {
      match TopSuccess(run.steps)
      case None => FinishTells(run, run.(steps := SkipPending(run.steps)), FinalStatus(run.reason), now);
      case Some(i) => UndoTells(env, run, i, now, undo);
    } else if run.index < |run.steps| {
      RunStepTells(env, run, now, body);
    } else {
      FinishTells(run, run, RunStatus.Success, now);
    }
  }

  /* ---- the loop of a tick ---- */

  /** What the call of run r in this store and tick makes of it. */
  function Called(env: Env, db: Db, r: nat, now: Time, world: World): RunRow
    requires r < |db.runs|
  {
    AdvanceDb(env, db, r, now, world).0.runs[r]
  }

  ghost predicate DiesIn(env: Env, db: Db, r: nat, now: Time, world: World)
    requires r < |db.runs|
  {
    AdvanceDb(env, db, r, now, world).1.ProcessDied?
  }

  ghost predicate InStore(db: Db, ids: seq<nat>) {
    forall j :: 0 <= j < |ids| ==> ids[j] < |db.runs|
  }

  /** The rows `after` come from the rows `before` by one call of each of the first n listed runs, and of the one
      behind them if that call died; called[r] and dies[r] are what a call of run r comes to. */
  ghost predicate CalledOnce(before: seq<RunRow>, after: seq<RunRow>, ids: seq<nat>, n: nat, died: bool,
                             called: seq<RunRow>, dies: seq<bool>)
    requires |before| == |after| == |called| == |dies| && forall j :: 0 <= j < |ids| ==> ids[j] < |before|
  {
    && n <= |ids| && (died <==> n < |ids|)
    && (forall j :: 0 <= j < n ==> after[ids[j]] == called[ids[j]] && !dies[ids[j]])
    && (died ==> after[ids[n]] == called[ids[n]] && dies[ids[n]])
    && (forall r :: 0 <= r < |before| && r !in ids ==> after[r] == before[r])
    && (forall j :: n < j < |ids| ==> after[ids[j]] == before[ids[j]])
  }

  lemma OneMoreCalled(before: seq<RunRow>, mid: seq<RunRow>, after: seq<RunRow>, ids: seq<nat>, n: nat, died: bool,
                      called: seq<RunRow>, dies: seq<bool>, called': seq<RunRow>, dies': seq<bool>)
    requires |before| == |mid| == |after| == |called| == |dies| == |called'| == |dies'|
    requires ids != [] && Distinct(ids) && forall j :: 0 <= j < |ids| ==> ids[j] < |before|
    requires mid == before[ids[0] := called[ids[0]]] && !dies[ids[0]]
    requires forall r :: 0 <= r < |before| && r != ids[0] ==> called'[r] == called[r] && dies'[r] == dies[r]
    requires CalledOnce(mid, after, ids[1..], n, died, called', dies')
    ensures CalledOnce(before, after, ids, n + 1, died, called, dies)
  {
    var rest := ids[1..];
    assert forall j :: 0 < j < |ids| ==> ids[j] == rest[j - 1] && ids[j] != ids[0];
    assert ids[0] !in rest;
    assert forall r :: r in ids <==> r == ids[0] || r in rest;
    if died { assert ids[n + 1] == rest[n]; }
  }

  ghost function AllCalled(env: Env, db: Db, now: Time, world: World): (s: seq<RunRow>)
    ensures |s| == |db.runs| && forall r :: 0 <= r < |s| ==> s[r] == Called(env, db, r, now, world)
  {
    seq(|db.runs|, r requires 0 <= r < |db.runs| => Called(env, db, r, now, world))
  }

  ghost function AllDie(env: Env, db: Db, now: Time, world: World): (s: seq<bool>)
    ensures |s| == |db.runs| && forall r :: 0 <= r < |s| ==> s[r] == DiesIn(env, db, r, now, world)
  {
    seq(|db.runs|, r requires 0 <= r < |db.runs| => DiesIn(env, db, r, now, world))
  }

  /** What a call comes to depends on the row of its run alone, so the first call changes no other's. */
  lemma FirstCall(env: Env, db: Db, now: Time, world: World, q: nat)
    requires q < |db.runs| && !DiesIn(env, db, q, now, world)
    ensures var next := AdvanceDb(env, db, q, now, world).0;
            var called, called' := AllCalled(env, db, now, world), AllCalled(env, next, now, world);
            var dies, dies' := AllDie(env, db, now, world), AllDie(env, next, now, world);
            && next.runs == db.runs[q := called[q]] && !dies[q] && |called'| == |dies'| == |db.runs|
            && forall r :: 0 <= r < |db.runs| && r != q ==> called'[r] == called[r] && dies'[r] == dies[r]
  {}

  lemma LoopStops(env: Env, db: Db, ids: seq<nat>, now: Time, world: World)
    requires InStore(db, ids) && Distinct(ids)
    requires ids != [] ==> DiesIn(env, db, ids[0], now, world)
    ensures var s := TickLoop(env, db, ids, now, world);
            CalledOnce(db.runs, s.db.runs, ids, s.advanced, s.died, AllCalled(env, db, now, world),
                       AllDie(env, db, now, world))
  {}

  /** Each run called in a tick is called once, on the row the tick began with; the tick gets through its
      whole list unless a call dies, which is then the last; no other run moves. */
  lemma {:induction false} LoopCallsOnce(env: Env, db: Db, ids: seq<nat>, now: Time, world: World)
    requires InStore(db, ids) && Distinct(ids)
    ensures var s := TickLoop(env, db, ids, now, world);
            CalledOnce(db.runs, s.db.runs, ids, s.advanced, s.died, AllCalled(env, db, now, world),
                       AllDie(env, db, now, world))
    decreases |ids|
  {
    if ids == [] || DiesIn(env, db, ids[0], now, world) {
      LoopStops(env, db, ids, now, world);
    } else {
      var next := AdvanceDb(env, db, ids[0], now, world).0;
      FirstCall(env, db, now, world, ids[0]);
      InStoreTail(db, ids);
      LoopCallsOnce(env, next, ids[1..], now, world);
      var rest := TickLoop(env, next, ids[1..], now, world);
      OneMoreCalled(db.runs, next.runs, rest.db.runs, ids, rest.advanced, rest.died,
                    AllCalled(env, db, now, world), AllDie(env, db, now, world),
                    AllCalled(env, next, now, world), AllDie(env, next, now, world));
    }
  }

  lemma InStoreTail(db: Db, ids: seq<nat>)
    requires InStore(db, ids) && Distinct(ids) && ids != []
    ensures InStore(db, ids[1..]) && Distinct(ids[1..])
  {
    assert forall j :: 0 <= j < |ids[1..]| ==> ids[1..][j] == ids[j + 1];
  }

  /** From one store to the other event e of run r was published once if the run's status went to its
      ending, and not at all otherwise; what was published before is still there. */
  ghost predicate PublishesOnce(a: Db, b: Db, r: nat, e: Event) {
    && |b.runs| == |a.runs| && |a.events| <= |b.events| && b.events[..|a.events|] == a.events
    && multiset(b.events[|a.events|..])[(r, e)] ==
       if r < |a.runs| && Announces(a.runs[r].status, b.runs[r].status, e) then 1 else 0
  }

  lemma PublishedThrough(a: Db, b: Db, c: Db, r: nat, e: Event)
    requires PublishesOnce(a, b, r, e) && PublishesOnce(b, c, r, e)
    requires r < |a.runs| ==> a.runs[r] == b.runs[r] || b.runs[r] == c.runs[r]
    ensures PublishesOnce(a, c, r, e)
  {
    assert c.events[|a.events|..] == b.events[|a.events|..] + c.events[|b.events|..];
  }

  lemma CallPublishesOnce(env: Env, db: Db, q: nat, now: Time, world: World, r: nat, e: Event)
    requires q < |db.runs|
    ensures PublishesOnce(db, AdvanceDb(env, db, q, now, world).0, r, e)
  {
    CallPublishes(env, db, q, now, world);
    OneEvent(db, AdvanceDb(env, db, q, now, world).0, q, r, e);
  }

  lemma OneEvent(db: Db, next: Db, q: nat, r: nat, e: Event)
    requires q < |db.runs| == |next.runs| && forall p :: 0 <= p < |db.runs| && p != q ==> next.runs[p] == db.runs[p]
    requires forall f :: Announces(db.runs[q].status, next.runs[q].status, f) ==> next.events == db.events + [(q, f)]
    requires (forall f :: !Announces(db.runs[q].status, next.runs[q].status, f)) ==> next.events == db.events
    ensures PublishesOnce(db, next, r, e)
  {
    if f :| Announces(db.runs[q].status, next.runs[q].status, f) {
      assert next.events[|db.events|..] == [(q, f)];
    } else {
      assert next.events[|db.events|..] == [];
    }
  }

  /** What a tick adds to the published events: for each run that its call ended, one event of that ending,
      and nothing else. */
  lemma {:induction false} LoopPublishes(env: Env, db: Db, ids: seq<nat>, now: Time, world: World, r: nat, e: Event)
    requires InStore(db, ids) && Distinct(ids)
    ensures PublishesOnce(db, TickLoop(env, db, ids, now, world).db, r, e)
    decreases |ids|
  {
    if ids == [] {
    } else {
      var (next, outcome) := AdvanceDb(env, db, ids[0], now, world);
      CallPublishesOnce(env, db, ids[0], now, world, r, e);
      if !outcome.ProcessDied? {
        LoopTail(env, db, next, ids, now, world, r);
        LoopPublishes(env, next, ids[1..], now, world, r, e);
        PublishedThrough(db, next, TickLoop(env, next, ids[1..], now, world).db, r, e);
      }
    }
  }

  /** A run moves in the first call of a tick or in the rest of it, not in both. */
  lemma LoopTail(env: Env, db: Db, next: Db, ids: seq<nat>, now: Time, world: World, r: nat)
    requires InStore(db, ids) && Distinct(ids) && ids != [] && |next.runs| == |db.runs|
    requires forall q :: 0 <= q < |db.runs| && q != ids[0] ==> next.runs[q] == db.runs[q]
    ensures InStore(next, ids[1..]) && Distinct(ids[1..])
    ensures r < |db.runs| ==>
              db.runs[r] == next.runs[r] || next.runs[r] == TickLoop(env, next, ids[1..], now, world).db.runs[r]
  {
    assert forall j :: 0 <= j < |ids[1..]| ==> ids[1..][j] == ids[j + 1];
    assert ids[0] !in ids[1..];
    LoopCallsOnce(env, next, ids[1..], now, world);
  }

  /** A whole tick: runs outside its batch are reclaimed and no more; the runs of the batch, in their order and
      up to one whose process dies, are reclaimed and then called once. */
  lemma TickCallsBatch(env: Env, db: Db, now: Time, batchSize: Option<nat>, world: World)
    ensures var swept := Db(ReclaimAll(env, db.runs, now), db.events);
            var ids := Batch(swept.runs, Limit(env, batchSize));
            var s := TickAllSpec(env, db, now, batchSize, world);
            && s.advanced <= |ids| && (s.died <==> s.advanced < |ids|)
            && (forall j :: 0 <= j < s.advanced || (s.died && j == s.advanced) ==>
                  s.db.runs[ids[j]] == Called(env, swept, ids[j], now, world))
            && (forall j :: s.advanced < j < |ids| ==> s.db.runs[ids[j]] == Reclaim(env, db.runs[ids[j]], now))
            && (forall r :: 0 <= r < |db.runs| && r !in ids ==> s.db.runs[r] == Reclaim(env, db.runs[r], now))
  {
    var swept := Db(ReclaimAll(env, db.runs, now), db.events);
    BatchIsOldest(swept.runs, Limit(env, batchSize));
    LoopCallsOnce(env, swept, Batch(swept.runs, Limit(env, batchSize)), now, world);
  }

  /* ---- a synchronous drain ---- */

  /** One call of run r at each of these times, whatever comes of them. */
  function Calls(env: Env, db: Db, r: nat, times: seq<Time>, world: World): (d: Db)
    requires r < |db.runs|
    ensures |d.runs| == |db.runs|
    decreases |times|
  {
    if times == [] then db
    else AdvanceDb(env, Calls(env, db, r, times[..|times| - 1], world), r, times[|times| - 1], world).0
  }

  lemma OneMoreCall(env: Env, db: Db, r: nat, times: seq<Time>, time: Time, world: World)
    requires r < |db.runs|
    ensures Calls(env, db, r, times + [time], world) == AdvanceDb(env, Calls(env, db, r, times, world), r, time, world).0
  {
    assert (times + [time])[..|times|] == times;
  }

  lemma {:induction false} CallsFrom(env: Env, db: Db, r: nat, times: seq<Time>, world: World)
    requires r < |db.runs| && times != []
    ensures Calls(env, AdvanceDb(env, db, r, times[0], world).0, r, times[1..], world) ==
            Calls(env, db, r, times, world)
    decreases |times|
  {
    var most, last := times[..|times| - 1], times[|times| - 1];
    assert times == most + [last];
    OneMoreCall(env, db, r, most, last, world);
    if |times| == 1 {
      assert most == [] == times[1..];
    } else {
      CallsFrom(env, db, r, most, world);
      assert times[1..] == most[1..] + [last];
      OneMoreCall(env, AdvanceDb(env, db, r, times[0], world).0, r, most[1..], last, world);
    }
  }

  /** The first n calls of this clock find the run still open, and none but the last of them dies. */
  ghost predicate OpenFor(env: Env, db: Db, r: nat, clock: seq<Time>, world: World, n: nat)
    requires r < |db.runs| && n <= |clock|
  {
    forall m :: 0 <= m < n ==>
      var d := Calls(env, db, r, clock[..m], world);
      !Terminal(d.runs[r].status) && (m < n - 1 ==> !DiesIn(env, d, r, clock[m], world))
  }

  lemma OpenOneMore(env: Env, db: Db, r: nat, clock: seq<Time>, world: World, n: nat)
    requires r < |db.runs| && n < |clock| && clock != []
    requires !Terminal(db.runs[r].status) && (n > 0 ==> !DiesIn(env, db, r, clock[0], world))
    requires OpenFor(env, AdvanceDb(env, db, r, clock[0], world).0, r, clock[1..], world, n)
    ensures OpenFor(env, db, r, clock, world, n + 1)
  {
    var next := AdvanceDb(env, db, r, clock[0], world).0;
    forall m | 0 <= m < n + 1
      ensures var d := Calls(env, db, r, clock[..m], world);
              !Terminal(d.runs[r].status) && (m < n ==> !DiesIn(env, d, r, clock[m], world))
    {
      if m == 0 {
        assert clock[..0] == [];
      } else {
        assert clock[1..][..m - 1] == clock[..m][1..] && clock[1..][m - 1] == clock[m];
        CallsFrom(env, db, r, clock[..m], world);
        assert Calls(env, next, r, clock[1..][..m - 1], world) == Calls(env, db, r, clock[..m], world);
      }
    }
  }

  /** After n calls of this clock the drain is over: the run is terminal, or the clock is at its end, or the
      last call died. */
  ghost predicate OverAfter(env: Env, db: Db, r: nat, clock: seq<Time>, world: World, n: nat, end: (Db, bool))
    requires r < |db.runs| && n <= |clock|
  {
    && end.0 == Calls(env, db, r, clock[..n], world)
    && (end.1 ==> Terminal(end.0.runs[r].status))
    && (end.1 || n == |clock| ||
        (n > 0 && DiesIn(env, Calls(env, db, r, clock[..n - 1], world), r, clock[n - 1], world)))
  }

  lemma OverOneMore(env: Env, db: Db, r: nat, clock: seq<Time>, world: World, n: nat, end: (Db, bool))
    requires r < |db.runs| && n < |clock|
    requires OverAfter(env, AdvanceDb(env, db, r, clock[0], world).0, r, clock[1..], world, n, end)
    ensures OverAfter(env, db, r, clock, world, n + 1, end)
  {
    assert clock[1..][..n] == clock[..n + 1][1..];
    CallsFrom(env, db, r, clock[..n + 1], world);
    if n > 0 {
      assert clock[1..][..n - 1] == clock[..n][1..] && clock[1..][n - 1] == clock[n];
      CallsFrom(env, db, r, clock[..n], world);
    }
  }

  lemma OverAtOnce(env: Env, db: Db, r: nat, clock: seq<Time>, world: World)
    requires r < |db.runs| && clock != [] && (|clock| == 1 || DiesIn(env, db, r, clock[0], world))
    requires !Terminal(db.runs[r].status)
    ensures OpenFor(env, db, r, clock, world, 1)
    ensures OverAfter(env, db, r, clock, world, 1, (AdvanceDb(env, db, r, clock[0], world).0, false))
  {
    assert clock[..1][..0] == [] == clock[..0];
  }

  /** A drain calls its run once per clock reading from the first on, never once it is terminal or after
      a call that died, and stops for no other reason than these and the end of the clock. */
  lemma {:induction false} DrainCalls(env: Env, db: Db, r: nat, clock: seq<Time>, world: World) returns (n: nat)
    requires r < |db.runs| && clock != []
    ensures n <= |clock| && OpenFor(env, db, r, clock, world, n)
    ensures OverAfter(env, db, r, clock, world, n, DrainSpec(env, db, r, clock, world))
    decreases |clock|
  {
    if Terminal(db.runs[r].status) {
      assert clock[..0] == [];
      n := 0;
    } else if AdvanceDb(env, db, r, clock[0], world).1.ProcessDied? || |clock| == 1 {
      OverAtOnce(env, db, r, clock, world);
      n := 1;
    } else {
      var next := AdvanceDb(env, db, r, clock[0], world).0;
      var k := DrainCalls(env, next, r, clock[1..], world);
      OpenOneMore(env, db, r, clock, world, k);
      OverOneMore(env, db, r, clock, world, k, DrainSpec(env, next, r, clock[1..], world));
      n := k + 1;
    }
  }
}
