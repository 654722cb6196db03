/** Which locks a reclaim breaks, and which it leaves alone: said on the rows, with the time a step may
    hold its lock as a number, and carried through a whole tick. */
module Recovery {
  import opened Wrappers
  import opened Workflow
  import opened EngineSpec
  import opened EngineFacts
  import opened Engine
  import opened Ticking

  /** The definition of this step sets a timeout of t seconds. */
  ghost predicate OwnTimeout(env: Env, run: RunRow, i: nat, t: int)
    requires i < |run.steps|
  {
    exists d: nat :: DefinedAt(env.registry(run.pipeline), run.steps[i].key, d) &&
                     env.registry(run.pipeline)[d].timeout == Some(t)
  }

  /** A lock on this step is good for t seconds: the step's own timeout if it has one, else the default. */
  ghost predicate MayHold(env: Env, run: RunRow, i: nat, t: int)
    requires i < |run.steps|
  {
    OwnTimeout(env, run, i, t) || (t == env.staleTimeout && forall u :: !OwnTimeout(env, run, i, u))
  }

  /** The step has a definition, and that allows a further attempt. */
  ghost predicate MayRetry(env: Env, run: RunRow, i: nat)
    requires i < |run.steps|
  {
    exists d: nat :: DefinedAt(env.registry(run.pipeline), run.steps[i].key, d) &&
                     run.steps[i].attempt < env.registry(run.pipeline)[d].maxAttempts
  }

  /** Still being worked on, or not being worked on at all. */
  predicate LeftAlone(s: StepRow, t: int, now: Time) {
    !s.status.Running? || s.lockedAt.None? || s.lockedAt.value + t > now
  }

  lemma DefinitionSays(env: Env, run: RunRow, i: nat, t: int)
    requires i < |run.steps| && MayHold(env, run, i, t)
    ensures Timeout(env, DefOf(env, run, i)) == t
    ensures MayRetry(env, run, i) <==>
              DefOf(env, run, i).Some? && run.steps[i].attempt < DefOf(env, run, i).value.maxAttempts
  {
    var defs, key := env.registry(run.pipeline), run.steps[i].key;
    var d := LookupIs(defs, key);
    forall c: nat | DefinedAt(defs, key, c) ensures FindStep(defs, key) == Some(defs[c]) {
      LookupFinds(defs, key, c);
    }
    if DefOf(env, run, i).Some? && defs[d].timeout.Some? {
      assert OwnTimeout(env, run, i, defs[d].timeout.value);
    }
  }

  /** A row after the reclaim of its run, from that row alone. */
  lemma {:induction false} RowReclaimed(env: Env, run: RunRow, k: nat, now: Time, i: nat)
    requires i < k <= |run.steps|
    ensures var r := ReclaimFirst(env, run, k, now);
            r.pipeline == run.pipeline && r.steps[i] == ReclaimStep(env, run, i, now).steps[i]
  {
    ReclaimFirstLeaves(env, run, k - 1, now);
    if i < k - 1 {
      RowReclaimed(env, run, k - 1, now, i);
    }
  }

  /** A reclaim leaves a row as it was exactly when the row is not RUNNING, or has no lock, or its lock is
      inside its time; any other row loses its lock and is pending again, or FAILED without attempts left. */
  lemma ReclaimSparesLiveLocks(env: Env, run: RunRow, now: Time, i: nat, t: int)
    requires i < |run.steps| && MayHold(env, run, i, t)
    ensures var s, r := run.steps[i], Reclaim(env, run, now);
            && |r.steps| == |run.steps|
            && (r.steps[i] == s <==> LeftAlone(s, t, now))
            && (!LeftAlone(s, t, now) ==>
                  r.steps[i] == StepRow(s.key,
                      if MayRetry(env, run, i) then StepStatus.Pending else StepStatus.Failed,
                      s.attempt, s.nextAttemptAt, None, s.output))
  {
    RowReclaimed(env, run, |run.steps|, now, i);
    DefinitionSays(env, run, i, t);
  }

  /** Some row of the run is out of time and out of attempts. */
  ghost predicate LosesStep(env: Env, run: RunRow, k: nat, now: Time)
    requires k <= |run.steps|
  {
    exists i: nat, t: int ::
      i < k && MayHold(env, run, i, t) && !LeftAlone(run.steps[i], t, now) && !MayRetry(env, run, i)
  }

  lemma HoldsFor(env: Env, run: RunRow, i: nat) returns (t: int)
    requires i < |run.steps|
    ensures MayHold(env, run, i, t)
    ensures forall u :: MayHold(env, run, i, u) ==> u == t
  {
    if u :| OwnTimeout(env, run, i, u) {
      t := u;
    } else {
      t := env.staleTimeout;
    }
    forall u | MayHold(env, run, i, u) ensures u == t {
      DefinitionSays(env, run, i, u);
      DefinitionSays(env, run, i, t);
    }
  }

  lemma {:induction false} RunReclaimedFirst(env: Env, run: RunRow, k: nat, now: Time)
    requires k <= |run.steps|
    ensures var r := ReclaimFirst(env, run, k, now);
            if LosesStep(env, run, k, now) then OnlyMoved(run, r, RunStatus.Compensating, ByFailure)
            else OnlyMoved(run, r, run.status, run.reason)
  {
    if k > 0 {
      var before := ReclaimFirst(env, run, k - 1, now);
      RunReclaimedFirst(env, run, k - 1, now);
      ReclaimFirstLeaves(env, run, k - 1, now);
      var t := HoldsFor(env, run, k - 1);
      DefinitionSays(env, run, k - 1, t);
      assert before.steps[k - 1] == run.steps[k - 1];
      assert LosesStep(env, run, k, now) <==>
        LosesStep(env, run, k - 1, now) || (!LeftAlone(run.steps[k - 1], t, now) && !MayRetry(env, run, k - 1));
    }
  }

  /** A reclaim turns the run to compensation for a failure exactly when it fails one of its rows, and
      changes nothing else of the run. */
  lemma ReclaimFailsRunIff(env: Env, run: RunRow, now: Time)
    ensures var r := Reclaim(env, run, now);
            if LosesStep(env, run, |run.steps|, now) then OnlyMoved(run, r, RunStatus.Compensating, ByFailure)
            else OnlyMoved(run, r, run.status, run.reason)
  {
    RunReclaimedFirst(env, run, |run.steps|, now);
  }

  /* ---- the reclaim of a tick ---- */

  /** No advance moves a row that is RUNNING. */
  lemma AdvanceSparesRunning(env: Env, run: RunRow, now: Time, body: BodyResult, undo: UndoResult, i: nat)
    requires i < |run.steps| && run.steps[i].status.Running?
    ensures var r := Advance(env, run, now, body, undo).run;
            |r.steps| == |run.steps| && r.steps[i] == run.steps[i]
  {}

  /** A step being worked on, its lock inside its time, comes through a whole tick as it was, wherever its
      run stands in the batch. */
  lemma LiveLockSurvivesTick(env: Env, db: Db, now: Time, batchSize: Option<nat>, world: World, r: nat, i: nat, t: int)
    requires r < |db.runs| && i < |db.runs[r].steps| && MayHold(env, db.runs[r], i, t)
    requires var s := db.runs[r].steps[i]; s.status.Running? && s.lockedAt.Some? && now < s.lockedAt.value + t
    ensures var after := TickAllSpec(env, db, now, batchSize, world).db.runs[r];
            |after.steps| == |db.runs[r].steps| && after.steps[i] == db.runs[r].steps[i]
  {
    var swept := Db(ReclaimAll(env, db.runs, now), db.events);
    var ids := Batch(swept.runs, Limit(env, batchSize));
    var run := swept.runs[r];
    ReclaimSparesLiveLocks(env, db.runs[r], now, i, t);
    AdvanceSparesRunning(env, run, now, BodyFor(world, r, run), UndoFor(world, r, run), i);
    TickCallsBatch(env, db, now, batchSize, world);
    if r in ids {
      var j :| 0 <= j < |ids| && ids[j] == r;
    }
  }

  /** Every other step still marked RUNNING under a lock is freed by the tick's reclaim, in every run: pending
      again, or FAILED and its run compensating. */
  lemma SweepFreesLateLocks(env: Env, runs: seq<RunRow>, now: Time, r: nat, i: nat, t: int)
    requires r < |runs| && i < |runs[r].steps| && MayHold(env, runs[r], i, t)
    ensures var s, swept := runs[r].steps[i], ReclaimAll(env, runs, now)[r];
            && |swept.steps| == |runs[r].steps|
            && (swept.steps[i] == s <==> LeftAlone(s, t, now))
            && (!LeftAlone(s, t, now) ==>
                  swept.steps[i].lockedAt.None? &&
                  if MayRetry(env, runs[r], i) then swept.steps[i].status.Pending?
                  else swept.steps[i].status.Failed? && swept.status.Compensating? && swept.reason.ByFailure?)
  {
    ReclaimSparesLiveLocks(env, runs[r], now, i, t);
    ReclaimFailsRunIff(env, runs[r], now);
  }

  /* ---- the number a reclaim returns ---- */

  /** The rows of a run, among its first k, that a reclaim changes. */
  ghost function Changed(env: Env, run: RunRow, k: nat, now: Time): set<nat>
    requires k <= |run.steps|
  {
    set i: nat | i < k && Reclaim(env, run, now).steps[i] != run.steps[i]
  }

  lemma OneMoreRow(env: Env, run: RunRow, k: nat, now: Time)
    requires 0 < k <= |run.steps|
    ensures |Changed(env, run, k, now)| ==
            |Changed(env, run, k - 1, now)| + if Stale(env, run, k - 1, now) then 1 else 0
  {
    RowReclaimed(env, run, |run.steps|, now, k - 1);
    var before := Changed(env, run, k - 1, now);
    assert Changed(env, run, k, now) == if Stale(env, run, k - 1, now) then before + {k - 1} else before;
  }

  lemma {:induction false} StaleRowsCounts(env: Env, run: RunRow, k: nat, now: Time)
    requires k <= |run.steps|
    ensures StaleRows(env, run, k, now) == |Changed(env, run, k, now)|
  {
    if k == 0 {
      assert Changed(env, run, 0, now) == {};
    } else {
      StaleRowsCounts(env, run, k - 1, now);
      OneMoreRow(env, run, k, now);
    }
  }

  /** The rows of the first k runs that the sweep over the whole store changes, as run and step. */
  ghost function AllChanged(env: Env, runs: seq<RunRow>, k: nat, now: Time): set<(nat, nat)>
    requires k <= |runs|
  {
    set r: nat, i: nat | r < k && i < |runs[r].steps| &&
                         ReclaimAll(env, runs, now)[r].steps[i] != runs[r].steps[i] :: (r, i)
  }

  function Pairs(r: nat, s: set<nat>): set<(nat, nat)> {
    set i | i in s :: (r, i)
  }

  lemma {:induction false} PairsSize(r: nat, s: set<nat>)
    ensures |Pairs(r, s)| == |s|
  {
    if s != {} {
      var i :| i in s;
      PairsSize(r, s - {i});
      assert Pairs(r, s) == Pairs(r, s - {i}) + {(r, i)};
    }
  }

  lemma OneMoreRun(env: Env, runs: seq<RunRow>, k: nat, now: Time)
    requires 0 < k <= |runs|
    ensures var here := Pairs(k - 1, Changed(env, runs[k - 1], |runs[k - 1].steps|, now));
            |AllChanged(env, runs, k, now)| == |AllChanged(env, runs, k - 1, now)| + |here|
  {
    var here := Pairs(k - 1, Changed(env, runs[k - 1], |runs[k - 1].steps|, now));
    assert AllChanged(env, runs, k - 1, now) !! here;
    assert AllChanged(env, runs, k, now) == AllChanged(env, runs, k - 1, now) + here;
  }

  lemma OneMoreCount(env: Env, runs: seq<RunRow>, k: nat, now: Time)
    requires 0 < k <= |runs|
    ensures |AllChanged(env, runs, k, now)| ==
            |AllChanged(env, runs, k - 1, now)| + StaleRows(env, runs[k - 1], |runs[k - 1].steps|, now)
  {
    var run := runs[k - 1];
    StaleRowsCounts(env, run, |run.steps|, now);
    PairsSize(k - 1, Changed(env, run, |run.steps|, now));
    OneMoreRun(env, runs, k, now);
  }

  /** The number a reclaim returns is the number of rows it changes, counted over every run of the store. */
  lemma {:induction false} StaleTotalCounts(env: Env, runs: seq<RunRow>, k: nat, now: Time)
    requires k <= |runs|
    ensures StaleTotal(env, runs, k, now) == |AllChanged(env, runs, k, now)|
  {
    if k == 0 {
      assert AllChanged(env, runs, 0, now) == {};
    } else {
      StaleTotalCounts(env, runs, k - 1, now);
      OneMoreCount(env, runs, k, now);
    }
  }
}
