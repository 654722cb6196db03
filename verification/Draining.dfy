/** Repeated ticks end every active run of any finite store. */
module Draining {
  import opened Wrappers
  import opened Workflow
  import opened EngineSpec
  import opened Coherence
  import opened Termination
  import opened Engine

  ghost predicate AllCoherent(env: Env, runs: seq<RunRow>) {
    forall r :: 0 <= r < |runs| ==> Coherent(env, runs[r])
  }

  function Total(env: Env, runs: seq<RunRow>): nat {
    if runs == [] then 0 else Total(env, runs[..|runs| - 1]) + Measure(env, runs[|runs| - 1])
  }

  ghost predicate AllLighter(env: Env, a: seq<RunRow>, b: seq<RunRow>) {
    |a| == |b| && forall r :: 0 <= r < |a| ==> Measure(env, b[r]) <= Measure(env, a[r])
  }

  lemma {:induction false} TotalMoves(env: Env, a: seq<RunRow>, b: seq<RunRow>)
    requires AllLighter(env, a, b)
    ensures Total(env, b) <= Total(env, a)
    ensures forall r :: 0 <= r < |a| && Measure(env, b[r]) < Measure(env, a[r]) ==> Total(env, b) < Total(env, a)
  {
    if a != [] {
      TotalMoves(env, a[..|a| - 1], b[..|b| - 1]);
      forall r | 0 <= r < |a| && Measure(env, b[r]) < Measure(env, a[r])
        ensures Total(env, b) < Total(env, a)
      {
        if r < |a| - 1 {
          assert a[..|a| - 1][r] == a[r] && b[..|b| - 1][r] == b[r];
        }
      }
    }
  }

  ghost predicate AnyActive(runs: seq<RunRow>) {
    exists r :: 0 <= r < |runs| && Active(runs[r].status)
  }

  /** The clock has moved past this run's backoff and past the lock timeout of its running step. */
  ghost predicate PastWaits(env: Env, run: RunRow, now: Time) {
    forall i :: 0 <= i < |run.steps| ==>
      && (run.steps[i].nextAttemptAt.Some? ==> run.steps[i].nextAttemptAt.value <= now)
      && (run.steps[i].lockedAt.Some? ==> run.steps[i].lockedAt.value + Timeout(env, DefOf(env, run, i)) <= now)
  }

  ghost predicate ClockPast(env: Env, runs: seq<RunRow>, now: Time) {
    forall r :: 0 <= r < |runs| ==> PastWaits(env, runs[r], now)
  }

  ghost predicate NoneRunning(run: RunRow) {
    forall i :: 0 <= i < |run.steps| ==> !run.steps[i].status.Running?
  }

  /** A late enough reclaim leaves no step marked RUNNING, and every active run ready to advance. */
  lemma ReclaimReadies(env: Env, run: RunRow, now: Time, body: BodyResult, undo: UndoResult)
    requires Coherent(env, run) && PastWaits(env, run, now)
    ensures var r := Reclaim(env, run, now);
            && Coherent(env, r) && NoneRunning(r)
            && Measure(env, r) <= Measure(env, run)
            && (Active(r.status) ==> Effective(Advance(env, r, now, body, undo).outcome))
  {
    ReclaimKeeps(env, run, now);
    ReclaimNotHeavier(env, run, now);
    ReclaimFrees(env, run, now);
    if Active(Reclaim(env, run, now).status) {
      ReadyAdvances(env, Reclaim(env, run, now), now, body, undo);
    }
  }

  ghost predicate NoneWaits(run: RunRow, now: Time) {
    forall i :: 0 <= i < |run.steps| && run.steps[i].nextAttemptAt.Some? ==> run.steps[i].nextAttemptAt.value <= now
  }

  lemma ReclaimFrees(env: Env, run: RunRow, now: Time)
    requires Coherent(env, run) && PastWaits(env, run, now)
    ensures NoneRunning(Reclaim(env, run, now)) && NoneWaits(Reclaim(env, run, now), now)
  {
    ReclaimFirstIs(env, run, |run.steps|, now);
  }

  lemma ReadyAdvances(env: Env, run: RunRow, now: Time, body: BodyResult, undo: UndoResult)
    requires Coherent(env, run) && NoneRunning(run) && NoneWaits(run, now) && Active(run.status)
    ensures Effective(Advance(env, run, now, body, undo).outcome)
  {}

  ghost predicate Quiet(runs: seq<RunRow>) {
    forall r :: 0 <= r < |runs| ==> !Active(runs[r].status) && NoneRunning(runs[r])
  }

  lemma AdvanceDbMoves(env: Env, db: Db, r: nat, now: Time, world: World)
    requires AllCoherent(env, db.runs) && r < |db.runs| && !Terminal(db.runs[r].status)
    ensures var (next, outcome) := AdvanceDb(env, db, r, now, world);
            && AllCoherent(env, next.runs) && |next.runs| == |db.runs|
            && Total(env, next.runs) <= Total(env, db.runs)
            && (Effective(outcome) ==> Total(env, next.runs) < Total(env, db.runs))
            && (forall q :: 0 <= q < |db.runs| && q != r ==> next.runs[q] == db.runs[q])
  {
    var run := db.runs[r];
    var (next, outcome) := AdvanceDb(env, db, r, now, world);
    ApplyKeeps(env, run, Tick(now, BodyFor(world, r, run), UndoFor(world, r, run)));
    AdvanceLighter(env, run, now, BodyFor(world, r, run), UndoFor(world, r, run));
    TotalMoves(env, db.runs, next.runs);
  }

  ghost predicate AllOpen(runs: seq<RunRow>, ids: seq<nat>) {
    forall j :: 0 <= j < |ids| ==> ids[j] < |runs| && !Terminal(runs[ids[j]].status)
  }

  lemma {:induction false} LoopMoves(env: Env, db: Db, ids: seq<nat>, now: Time, world: World)
    requires AllCoherent(env, db.runs) && AllOpen(db.runs, ids) && Distinct(ids)
    ensures var s := TickLoop(env, db, ids, now, world);
            && AllCoherent(env, s.db.runs) && |s.db.runs| == |db.runs|
            && Total(env, s.db.runs) <= Total(env, db.runs)
            && (ids != [] && Effective(AdvanceDb(env, db, ids[0], now, world).1) ==>
                  Total(env, s.db.runs) < Total(env, db.runs))
    decreases |ids|
  {
    if ids != [] {
      AdvanceDbMoves(env, db, ids[0], now, world);
      var (next, outcome) := AdvanceDb(env, db, ids[0], now, world);
      if !outcome.ProcessDied? {
        assert AllOpen(next.runs, ids[1..]);
        LoopMoves(env, next, ids[1..], now, world);
      }
    }
  }

  lemma SweepReadies(env: Env, db: Db, now: Time, world: World)
    requires AllCoherent(env, db.runs) && ClockPast(env, db.runs, now)
    ensures var swept := ReclaimAll(env, db.runs, now);
            && AllCoherent(env, swept) && AllLighter(env, db.runs, swept)
            && forall r :: 0 <= r < |swept| ==>
                 NoneRunning(swept[r]) &&
                 (Active(swept[r].status) ==> Effective(AdvanceDb(env, Db(swept, db.events), r, now, world).1))
  {
    var swept := ReclaimAll(env, db.runs, now);
    forall r | 0 <= r < |swept|
      ensures Coherent(env, swept[r]) && NoneRunning(swept[r]) && Measure(env, swept[r]) <= Measure(env, db.runs[r])
      ensures Active(swept[r].status) ==> Effective(AdvanceDb(env, Db(swept, db.events), r, now, world).1)
    {
      assert PastWaits(env, db.runs[r], now);
      ReclaimReadies(env, db.runs[r], now, BodyFor(world, r, swept[r]), UndoFor(world, r, swept[r]));
    }
  }

  lemma BatchIsOpen(runs: seq<RunRow>, limit: nat)
    requires limit >= 1
    ensures var ids := Batch(runs, limit);
            && AllOpen(runs, ids) && Distinct(ids)
            && (ids != [] ==> Active(runs[ids[0]].status))
            && (ids == [] ==> forall r :: 0 <= r < |runs| ==> !Active(runs[r].status))
  {
    var ids := Batch(runs, limit);
    BatchIsOldest(runs, limit);
    forall j | 0 <= j < |ids| ensures ids[j] < |runs| && Active(runs[ids[j]].status) {
      assert ids[j] in ids;
      assert ActiveBelow(runs, |runs|, ids[j]);
    }
    if ids == [] {
      forall r | 0 <= r < |runs| ensures !Active(runs[r].status) {
        assert !ActiveBelow(runs, |runs|, r);
      }
    }
  }

  /** One tick either strictly lightens the store or leaves it with nothing to do. */
  lemma TickMoves(env: Env, db: Db, now: Time, batchSize: Option<nat>, world: World)
    requires AllCoherent(env, db.runs) && ClockPast(env, db.runs, now) && Limit(env, batchSize) >= 1
    ensures var s := TickAllSpec(env, db, now, batchSize, world).db;
            && AllCoherent(env, s.runs)
            && Total(env, s.runs) <= Total(env, db.runs)
            && (Total(env, s.runs) < Total(env, db.runs) || Quiet(s.runs))
  {
    var swept := ReclaimAll(env, db.runs, now);
    SweepReadies(env, db, now, world);
    TotalMoves(env, db.runs, swept);
    BatchIsOpen(swept, Limit(env, batchSize));
    LoopMoves(env, Db(swept, db.events), Batch(swept, Limit(env, batchSize)), now, world);
  }

  lemma SomeMember(ids: seq<nat>)
    ensures ids == [] || exists r: nat :: r in ids
  {
    if ids != [] { assert ids[0] in ids; }
  }

  /** A store with nothing to do stays so. */
  lemma QuietStays(env: Env, db: Db, now: Time, batchSize: Option<nat>, world: World)
    requires AllCoherent(env, db.runs) && Quiet(db.runs)
    ensures TickAllSpec(env, db, now, batchSize, world).db.runs == db.runs
  {
    var swept := ReclaimAll(env, db.runs, now);
    forall r | 0 <= r < |swept| ensures swept[r] == db.runs[r] {
      ReclaimFirstIs(env, db.runs[r], |db.runs[r].steps|, now);
    }
    assert swept == db.runs;
    var ids := Batch(swept, Limit(env, batchSize));
    BatchIsOldest(swept, Limit(env, batchSize));
    forall r: nat ensures !ActiveBelow(swept, |swept|, r) && r !in ids {}
    SomeMember(ids);
  }

  /** A sequence of ticks, each at its own time and with its own outcomes of everything it runs. */
  ghost predicate Ticks(env: Env, batchSize: Option<nat>, dbs: seq<Db>, clock: seq<Time>, worlds: seq<World>) {
    && |dbs| == |clock| + 1 == |worlds| + 1
    && forall k :: 0 <= k < |clock| ==>
         ClockPast(env, dbs[k].runs, clock[k]) &&
         dbs[k + 1] == TickAllSpec(env, dbs[k], clock[k], batchSize, worlds[k]).db
  }

  lemma {:induction false} TicksLighten(env: Env, batchSize: Option<nat>, dbs: seq<Db>, clock: seq<Time>,
      worlds: seq<World>,
                                        k: nat)
    requires Ticks(env, batchSize, dbs, clock, worlds) && k < |dbs|
    requires AllCoherent(env, dbs[0].runs) && Limit(env, batchSize) >= 1
    ensures AllCoherent(env, dbs[k].runs)
    ensures Quiet(dbs[k].runs) || Total(env, dbs[k].runs) + k <= Total(env, dbs[0].runs)
  {
    if k > 0 {
      TicksLighten(env, batchSize, dbs, clock, worlds, k - 1);
      assert ClockPast(env, dbs[k - 1].runs, clock[k - 1]);
      assert dbs[k - 1 + 1] == TickAllSpec(env, dbs[k - 1], clock[k - 1], batchSize, worlds[k - 1]).db;
      TickMoves(env, dbs[k - 1], clock[k - 1], batchSize, worlds[k - 1]);
      if Quiet(dbs[k - 1].runs) {
        QuietStays(env, dbs[k - 1], clock[k - 1], batchSize, worlds[k - 1]);
      }
    }
  }

  lemma {:induction false} TotalCountsOpen(env: Env, runs: seq<RunRow>, r: nat)
    requires r < |runs| && !Terminal(runs[r].status)
    ensures Total(env, runs) >= 1
  {
    if r < |runs| - 1 {
      TotalCountsOpen(env, runs[..|runs| - 1], r);
    }
  }

  /** From any store of coherent runs, with any batch limit of at least one and the clock moved past
      the pending waits between calls, no run is active after as many ticks as the summed measures,
      nor after any later one, whatever the bodies do and wherever processes die. */
  lemma TicksDrain(env: Env, batchSize: Option<nat>, dbs: seq<Db>, clock: seq<Time>, worlds: seq<World>, k: nat)
    requires Ticks(env, batchSize, dbs, clock, worlds) && k < |dbs|
    requires AllCoherent(env, dbs[0].runs) && Limit(env, batchSize) >= 1
    requires k >= Total(env, dbs[0].runs)
    ensures !AnyActive(dbs[k].runs)
  {
    TicksLighten(env, batchSize, dbs, clock, worlds, k);
    if AnyActive(dbs[k].runs) {
      var r :| 0 <= r < |dbs[k].runs| && Active(dbs[k].runs[r].status);
      TotalCountsOpen(env, dbs[k].runs, r);
    }
  }
}
