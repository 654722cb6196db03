/** The engine as it runs: a store whose run rows and published events the operations update in
    place (platform/workflow/engine.py and the control plane of services.py). Each operation is
    proved equal to its function in EngineSpec or, for the batch ticker, in this module. */
module Engine {
  import opened Wrappers
  import opened Workflow
  import opened EngineSpec

  datatype ControlError = Conflict(reason: string)

  /** What every step body and every compensation does, by run, step and attempt number. */
  datatype World = World(body: (nat, nat, nat) -> BodyResult, undo: (nat, nat, nat) -> UndoResult)

  datatype Db = Db(runs: seq<RunRow>, events: seq<(nat, Event)>)

  function EventsOf(r: nat, log: seq<Obs>): seq<(nat, Event)> {
    if log == [] then []
    else EventsOf(r, log[..|log| - 1]) +
         (if log[|log| - 1].Published? then [(r, log[|log| - 1].event)] else [])
  }

  function BodyFor(world: World, r: nat, run: RunRow): BodyResult {
    world.body(r, run.index, if run.index < |run.steps| then run.steps[run.index].attempt + 1 else 0)
  }

  function UndoFor(world: World, r: nat, run: RunRow): UndoResult {
    var top := TopSuccess(run.steps);
    if top.None? then UndoReturns else world.undo(r, top.value, run.steps[top.value].attempt + 1)
  }

  function AdvanceDb(env: Env, db: Db, r: nat, now: Time, world: World): (Db, Outcome)
    requires r < |db.runs|
  {
    var e := Advance(env, db.runs[r], now, BodyFor(world, r, db.runs[r]), UndoFor(world, r, db.runs[r]));
    (Db(db.runs[r := e.run], db.events + EventsOf(r, e.log)), e.outcome)
  }

  /* ---- the batch ticker ---- */

  function ReclaimAll(env: Env, runs: seq<RunRow>, now: Time): (s: seq<RunRow>)
    ensures |s| == |runs|
    ensures forall r :: 0 <= r < |runs| ==> s[r] == Reclaim(env, runs[r], now)
  {
    seq(|runs|, r requires 0 <= r < |runs| => Reclaim(env, runs[r], now))
  }

  function Age(runs: seq<RunRow>, r: nat): Time {
    if r < |runs| then runs[r].queuedAt else 0
  }

  /** Put run x into a list ordered by queued_at, behind the runs queued no later. */
  function InsertByAge(runs: seq<RunRow>, ids: seq<nat>, x: nat): seq<nat> {
    if ids == [] then [x]
    else if Age(runs, ids[|ids| - 1]) <= Age(runs, x) then ids + [x]
    else InsertByAge(runs, ids[..|ids| - 1], x) + [ids[|ids| - 1]]
  }

  /** Where an insertion puts its element. */
  function Place(runs: seq<RunRow>, ids: seq<nat>, x: nat): (k: nat)
    ensures k <= |ids|
  {
    if ids == [] then 0
    else if Age(runs, ids[|ids| - 1]) <= Age(runs, x) then |ids|
    else Place(runs, ids[..|ids| - 1], x)
  }

  lemma {:induction false} PlaceByAge(runs: seq<RunRow>, ids: seq<nat>, x: nat)
    ensures var k := Place(runs, ids, x);
            && (k > 0 ==> Age(runs, ids[k - 1]) <= Age(runs, x))
            && (forall j :: k <= j < |ids| ==> Age(runs, ids[j]) > Age(runs, x))
  {
    if ids != [] && Age(runs, ids[|ids| - 1]) > Age(runs, x) {
      PlaceByAge(runs, ids[..|ids| - 1], x);
    }
  }

  /** Insertion splits the list at one place. */
  lemma {:induction false} InsertSplits(runs: seq<RunRow>, ids: seq<nat>, x: nat)
    ensures var k := Place(runs, ids, x); InsertByAge(runs, ids, x) == ids[..k] + [x] + ids[k..]
  {
    if ids != [] && Age(runs, ids[|ids| - 1]) > Age(runs, x) {
      InsertSplits(runs, ids[..|ids| - 1], x);
      LastBehind(ids, Place(runs, ids[..|ids| - 1], x), x);
    }
  }

  lemma LastBehind(ids: seq<nat>, k: nat, x: nat)
    requires k < |ids|
    ensures ids[..|ids| - 1][..k] + [x] + ids[..|ids| - 1][k..] + [ids[|ids| - 1]] == ids[..k] + [x] + ids[k..]
  {
    assert ids[k..] == ids[..|ids| - 1][k..] + [ids[|ids| - 1]];
  }

  ghost predicate ByAge(runs: seq<RunRow>, ids: seq<nat>) {
    forall j, k :: 0 <= j < k < |ids| ==> Age(runs, ids[j]) <= Age(runs, ids[k])
  }

  ghost predicate Distinct(ids: seq<nat>) {
    forall j, k :: 0 <= j < k < |ids| ==> ids[j] != ids[k]
  }

  /** What a list is after one element was put in at place k. */
  lemma PutIn(ids: seq<nat>, k: nat, x: nat, all: seq<nat>)
    requires k <= |ids| && all == ids[..k] + [x] + ids[k..]
    ensures |all| == |ids| + 1
    ensures forall j :: 0 <= j < |all| ==> all[j] == if j < k then ids[j] else if j == k then x else ids[j - 1]
    ensures forall y :: y in all <==> y in ids || y == x
    ensures Distinct(ids) && x !in ids ==> Distinct(all)
  {
    assert all[k] == x;
    forall y | y in ids ensures y in all {
      var j :| 0 <= j < |ids| && ids[j] == y;
      assert all[if j < k then j else j + 1] == y;
    }
  }

  /** A list in order of age, with x put in where the younger ones begin, is still in order. */
  lemma PutInKeepsAge(runs: seq<RunRow>, ids: seq<nat>, k: nat, x: nat, all: seq<nat>)
    requires ByAge(runs, ids) && k <= |ids| && all == ids[..k] + [x] + ids[k..]
    requires k > 0 ==> Age(runs, ids[k - 1]) <= Age(runs, x)
    requires forall j :: k <= j < |ids| ==> Age(runs, ids[j]) > Age(runs, x)
    ensures ByAge(runs, all)
  {
    forall i, j | 0 <= i < j < |all|
      ensures Age(runs, all[i]) <= Age(runs, all[j])
    {
      assert i < k ==> Age(runs, ids[i]) <= Age(runs, ids[k - 1]);
    }
  }

  lemma InsertKeepsAge(runs: seq<RunRow>, ids: seq<nat>, x: nat)
    requires ByAge(runs, ids) && Distinct(ids) && x !in ids
    ensures ByAge(runs, InsertByAge(runs, ids, x)) && Distinct(InsertByAge(runs, ids, x))
    ensures forall y :: y in InsertByAge(runs, ids, x) <==> y in ids || y == x
  {
    var k := Place(runs, ids, x);
    var all := InsertByAge(runs, ids, x);
    PlaceByAge(runs, ids, x);
    InsertSplits(runs, ids, x);
    PutIn(ids, k, x, all);
    PutInKeepsAge(runs, ids, k, x, all);
  }

  /** The active runs among the first k rows, oldest first. */
  function ActiveByAge(runs: seq<RunRow>, k: nat): seq<nat>
    requires k <= |runs|
  {
    if k == 0 then []
    else if Active(runs[k - 1].status) then InsertByAge(runs, ActiveByAge(runs, k - 1), k - 1)
    else ActiveByAge(runs, k - 1)
  }

  ghost predicate ActiveBelow(runs: seq<RunRow>, k: nat, r: nat)
    requires k <= |runs|
  {
    r < k && Active(runs[r].status)
  }

  lemma OneMoreActive(runs: seq<RunRow>, k: nat)
    requires 0 < k <= |runs|
    ensures !ActiveBelow(runs, k - 1, k - 1)
    ensures forall r: nat :: ActiveBelow(runs, k, r) <==>
              ActiveBelow(runs, k - 1, r) || (r == k - 1 && Active(runs[k - 1].status))
  {}

  lemma {:induction false} ActiveByAgeIs(runs: seq<RunRow>, k: nat)
    requires k <= |runs|
    ensures ByAge(runs, ActiveByAge(runs, k)) && Distinct(ActiveByAge(runs, k))
    ensures forall r: nat :: r in ActiveByAge(runs, k) <==> ActiveBelow(runs, k, r)
  {
    if k > 0 {
      ActiveByAgeIs(runs, k - 1);
      OneMoreActive(runs, k);
      if Active(runs[k - 1].status) {
        InsertKeepsAge(runs, ActiveByAge(runs, k - 1), k - 1);
      }
    }
  }

  /** What the ticker's query selects: the oldest active runs, up to the limit. */
  function Batch(runs: seq<RunRow>, limit: nat): (ids: seq<nat>)
    ensures forall j :: 0 <= j < |ids| ==> ids[j] < |runs|
  {
    var all := ActiveByAge(runs, |runs|);
    ActiveByAgeIs(runs, |runs|);
    assert forall j :: 0 <= j < |all| ==> all[j] in all && ActiveBelow(runs, |runs|, all[j]);
    all[..Min(limit, |all|)]
  }

  /** The batch is what the query promises: active runs, none twice, as many as the limit allows, the one
      queued first in front, and no run left out was queued before one taken. */
  lemma BatchIsOldest(runs: seq<RunRow>, limit: nat)
    ensures var ids := Batch(runs, limit);
            && Distinct(ids)
            && (forall r: nat :: r in ids ==> ActiveBelow(runs, |runs|, r))
            && |ids| <= limit
            && (|ids| < limit ==> forall r: nat :: ActiveBelow(runs, |runs|, r) ==> r in ids)
            && (forall j, k :: 0 <= j < k < |ids| ==> runs[ids[j]].queuedAt <= runs[ids[k]].queuedAt)
            && (forall r: nat, q: nat :: ActiveBelow(runs, |runs|, r) && r !in ids && q in ids ==>
                  q < |runs| && runs[q].queuedAt <= runs[r].queuedAt)
  {
    var all := ActiveByAge(runs, |runs|);
    var ids := Batch(runs, limit);
    ActiveByAgeIs(runs, |runs|);
    assert forall m :: 0 <= m < |ids| ==> all[m] == ids[m] && ids[m] in all && all[m] in ids;
    if |ids| < limit { assert ids == all; }
    forall r: nat, q: nat | ActiveBelow(runs, |runs|, r) && r !in ids && q in ids
      ensures q < |runs| && runs[q].queuedAt <= runs[r].queuedAt
    {
      assert r in all;
      var j :| 0 <= j < |ids| && ids[j] == q;
      var k :| 0 <= k < |all| && all[k] == r;
      assert all[j] == q && k >= |ids| && Age(runs, all[j]) <= Age(runs, all[k]);
    }
  }

  datatype Sweep = Sweep(db: Db, advanced: nat, died: bool)

  /** Advance each listed run once; a process killed in a body advances no further run. */
  function TickLoop(env: Env, db: Db, ids: seq<nat>, now: Time, world: World): (s: Sweep)
    requires forall j :: 0 <= j < |ids| ==> ids[j] < |db.runs|
    ensures |s.db.runs| == |db.runs|
    decreases |ids|
  {
    if ids == [] then Sweep(db, 0, false)
    else
      var (next, outcome) := AdvanceDb(env, db, ids[0], now, world);
      if outcome.ProcessDied? then Sweep(next, 0, true)
      else
        var rest := TickLoop(env, next, ids[1..], now, world);
        rest.(advanced := rest.advanced + 1)
  }

  /** The loop from place j on: one advance, then the loop from the next place. */
  lemma LoopFrom(env: Env, db: Db, ids: seq<nat>, j: nat, now: Time, world: World)
    requires j < |ids| && forall k :: 0 <= k < |ids| ==> ids[k] < |db.runs|
    ensures var (next, outcome) := AdvanceDb(env, db, ids[j], now, world);
            && |next.runs| == |db.runs|
            && TickLoop(env, db, ids[j..], now, world) ==
               if outcome.ProcessDied? then Sweep(next, 0, true)
               else var rest := TickLoop(env, next, ids[j + 1..], now, world); rest.(advanced := rest.advanced + 1)
  {
    assert ids[j..][0] == ids[j] && ids[j..][1..] == ids[j + 1..];
  }

  function Limit(env: Env, batchSize: Option<nat>): nat {
    if batchSize.Some? && batchSize.value != 0 then batchSize.value else env.batchSize
  }

  function TickAllSpec(env: Env, db: Db, now: Time, batchSize: Option<nat>, world: World): (s: Sweep)
    ensures |s.db.runs| == |db.runs|
  {
    var swept := ReclaimAll(env, db.runs, now);
    TickLoop(env, Db(swept, db.events), Batch(swept, Limit(env, batchSize)), now, world)
  }

  /** Rows of a run, among its first k, that a reclaim at this time resets. */
  function StaleRows(env: Env, run: RunRow, k: nat, now: Time): nat
    requires k <= |run.steps|
  {
    if k == 0 then 0 else StaleRows(env, run, k - 1, now) + if Stale(env, run, k - 1, now) then 1 else 0
  }

  function StaleTotal(env: Env, runs: seq<RunRow>, k: nat, now: Time): nat
    requires k <= |runs|
  {
    if k == 0 then 0 else StaleTotal(env, runs, k - 1, now) + StaleRows(env, runs[k - 1], |runs[k - 1].steps|, now)
  }

  lemma {:induction false} ReclaimFirstLeaves(env: Env, run: RunRow, k: nat, now: Time)
    requires k <= |run.steps|
    ensures var r := ReclaimFirst(env, run, k, now);
            r.pipeline == run.pipeline && forall i :: k <= i < |run.steps| ==> r.steps[i] == run.steps[i]
  {
    if k > 0 {
      ReclaimFirstLeaves(env, run, k - 1, now);
    }
  }

  /* ---- start ---- */

  ghost predicate KeyHeldBy(runs: seq<RunRow>, r: nat, tenant: string, pipeline: string, key: string) {
    r < |runs| && runs[r].tenant == tenant && runs[r].pipeline == pipeline && runs[r].idempotencyKey == key
  }

  /** The partial unique constraint: no two runs of one tenant and pipeline share a non-empty key. */
  ghost predicate KeysUnique(runs: seq<RunRow>) {
    forall r, q :: 0 <= r < q < |runs| && runs[r].idempotencyKey != "" ==>
      !(runs[r].tenant == runs[q].tenant && runs[r].pipeline == runs[q].pipeline &&
        runs[r].idempotencyKey == runs[q].idempotencyKey)
  }

  /** A whole synchronous drain: one advance per reading of the clock until the run is found terminal.
      The last reading is the first one past the deadline, and the advance before it still happens. */
  function DrainSpec(env: Env, db: Db, r: nat, clock: seq<Time>, world: World): (Db, bool)
    requires r < |db.runs| && clock != []
    decreases |clock|
  {
    if Terminal(db.runs[r].status) then (db, true)
    else
      var (next, outcome) := AdvanceDb(env, db, r, clock[0], world);
      if outcome.ProcessDied? || |clock| == 1 then (next, false) else DrainSpec(env, next, r, clock[1..], world)
  }

  class Store {
    const env: Env
    var runs: seq<RunRow>
    var events: seq<(nat, Event)>

    constructor (env: Env)
      ensures this.env == env && runs == [] && events == [] && KeysUnique(runs)
    {
      this.env := env;
      runs := [];
      events := [];
    }

    /** The compare-and-set every claim goes through: it wins exactly from the expected status. */
    method ClaimStep(r: nat, i: nat, fromStatus: StepStatus, toStatus: StepStatus, now: Time) returns (won: bool)
      requires r < |runs| && i < |runs[r].steps|
      modifies this`runs
      ensures won <==> old(runs[r].steps[i].status) == fromStatus
      ensures runs == if won then old(runs)[r := WithStep(old(runs[r]), i, Claim(old(runs[r].steps[i]), toStatus, now))]
                      else old(runs)
    {
      var row := runs[r].steps[i];
      if row.status == fromStatus {
        runs := runs[r := WithStep(runs[r], i,
            row.(status := toStatus, attempt := row.attempt + 1, lockedAt := Some(now)))];
        return true;
      }
      return false;
    }

    method FinishRun(r: nat, status: RunStatus, now: Time) returns (outcome: Outcome)
      requires r < |runs|
      modifies this`runs, this`events
      ensures var e := Finish(old(runs[r]), status, now);
              runs == old(runs)[r := e.run] && events == old(events) + EventsOf(r, e.log) && outcome == e.outcome
    {
      var updated := Active(runs[r].status);
      ghost var e := Finish(runs[r], status, now);
      if updated {
        runs := runs[r := runs[r].(status := status, finishedAt := Some(now))];
        events := events + [(r, EventFor(status))];
        assert e.log[..0] == [];
      }
      return RunFinished;
    }

    /** A failed attempt: back to PENDING with a backoff, or FAILED and into compensation. */
    method HandleStepFailure(r: nat, i: nat, def: Option<StepDef>, maxAttempts: Option<int>, at: Time)
      returns (outcome: Outcome)
      requires r < |runs| && i < |runs[r].steps|
      modifies this`runs
      ensures var s := old(runs[r].steps[i]);
              var limit := if maxAttempts.Some? then maxAttempts.value
                           else if def.Some? then def.value.maxAttempts else 1;
              var delay := if def.Some? then def.value.backoff(s.attempt) else 0;
              runs == old(runs)[r := FailStep(old(runs[r]), i, limit, delay, at)] && outcome == Retrying
    {
      var limit := if maxAttempts.Some? then maxAttempts.value else if def.Some? then def.value.maxAttempts else 1;
      var row := runs[r].steps[i];
      if row.attempt < limit {
        var delay := if def.Some? then def.value.backoff(row.attempt) else 0;
        row := row.(status := StepStatus.Pending, lockedAt := None, nextAttemptAt := Some(at + delay));
        runs := runs[r := WithStep(runs[r], i, row)];
        return Retrying;
      }
      row := row.(status := StepStatus.Failed, lockedAt := None);
      runs := runs[r := WithStep(runs[r], i, row)];
      runs := runs[r := runs[r].(reason := ByFailure, status := RunStatus.Compensating)];
      return Retrying;
    }

    method UnwindOne(r: nat, now: Time, undo: UndoResult) returns (outcome: Outcome)
      requires r < |runs|
      modifies this`runs, this`events
      ensures var e := AdvanceCompensation(env, old(runs[r]), now, undo);
              runs == old(runs)[r := e.run] && events == old(events) + EventsOf(r, e.log) && outcome == e.outcome
    {
      ghost var e := AdvanceCompensation(env, runs[r], now, undo);
      var top := TopSuccess(runs[r].steps);
      if top.None? {
        runs := runs[r := runs[r].(steps := SkipPending(runs[r].steps))];
        var final := if runs[r].reason.ByCancel? then RunStatus.Cancelled else RunStatus.Failed;
        outcome := FinishRun(r, final, now);
        return;
      }
      var i := top.value;
      var claimed := ClaimStep(r, i, StepStatus.Success, StepStatus.Compensating, now);
      if !claimed {
        return AlreadyClaimed;
      }
      NoEvents(r, e.log);
      var def := DefOf(env, runs[r], i);
      var row := runs[r].steps[i];
      if def.Some? && def.value.hasUndo {
        match undo
        case UndoReturns => row := row.(status := StepStatus.Compensated);
        case UndoRaises => row := row.(status := StepStatus.CompensationFailed);
        case UndoDies => return ProcessDied;
      } else {
        row := row.(status := StepStatus.Compensated);
      }
      row := row.(lockedAt := None);
      assert e.run.steps == old(runs[r]).steps[i := row];
      runs := runs[r := WithStep(runs[r], i, row)];
      assert runs[r] == e.run;
      return StepCompensated;
    }

    /** Advance exactly one step of one run. */
    method AdvanceOne(r: nat, now: Time, body: BodyResult, undo: UndoResult) returns (outcome: Outcome)
      requires r < |runs|
      modifies this`runs, this`events
      ensures var e := Advance(env, old(runs[r]), now, body, undo);
              runs == old(runs)[r := e.run] && events == old(events) + EventsOf(r, e.log) && outcome == e.outcome
    {
      ghost var e := Advance(env, runs[r], now, body, undo);
      if runs[r].status.Paused? {
        return PausedOutcome;
      }
      if runs[r].status.Compensating? {
        outcome := UnwindOne(r, now, undo);
        return;
      }
      var i := runs[r].index;
      if i >= |runs[r].steps| {
        outcome := FinishRun(r, RunStatus.Success, now);
        return;
      }
      var row := runs[r].steps[i];
      if row.status.Pending? && row.nextAttemptAt.Some? && row.nextAttemptAt.value > now {
        return NotDue;
      }
      var claimed := ClaimStep(r, i, StepStatus.Pending, StepStatus.Running, now);
      if !claimed {
        return AlreadyClaimed;
      }
      NoEvents(r, e.log);
      row := runs[r].steps[i];
      if runs[r].status.Queued? {
        var started := if runs[r].startedAt.Some? then runs[r].startedAt else Some(now);
        runs := runs[r := runs[r].(status := RunStatus.Running, startedAt := started)];
      }
      var def := DefOf(env, runs[r], i);
      if def.None? {
        outcome := HandleStepFailure(r, i, None, Some(row.attempt), now);
        return;
      }
      match body {
        case Dies => return ProcessDied;
        case Raises(took) =>
          outcome := HandleStepFailure(r, i, def, None, now + took);
          return;
        case Returns(output, took) =>
          outcome := RecordSuccess(r, i, output);
      }
    }

    /** The two saves after a body returned: the step row, then context and index. */
    method RecordSuccess(r: nat, i: nat, output: Json) returns (outcome: Outcome)
      requires r < |runs| && i < |runs[r].steps|
      modifies this`runs
      ensures runs == old(runs)[r := SucceedStep(old(runs[r]), i, output)] && outcome == StepSucceeded
    {
      var row := runs[r].steps[i];
      row := row.(status := StepStatus.Success, output := output, lockedAt := None);
      runs := runs[r := WithStep(runs[r], i, row)];
      runs := runs[r := runs[r].(context := runs[r].context[row.key := output], index := runs[r].index + 1)];
      return StepSucceeded;
    }

    /** Crash recovery over every stale row of every run. */
    method ReclaimStaleSteps(now: Time) returns (reclaimed: nat)
      modifies this`runs
      ensures runs == ReclaimAll(env, old(runs), now)
      ensures reclaimed == StaleTotal(env, old(runs), |old(runs)|, now)
    {
      reclaimed := 0;
      var r := 0;
      while r < |runs|
        invariant 0 <= r <= |runs| == |old(runs)|
        invariant forall q :: 0 <= q < r ==> runs[q] == Reclaim(env, old(runs)[q], now)
        invariant forall q :: r <= q < |runs| ==> runs[q] == old(runs)[q]
        invariant reclaimed == StaleTotal(env, old(runs), r, now)
      {
        var n := ReclaimRun(r, now);
        reclaimed := reclaimed + n;
        r := r + 1;
      }
    }

    method ReclaimRun(r: nat, now: Time) returns (reclaimed: nat)
      requires r < |runs|
      modifies this`runs
      ensures runs == old(runs)[r := Reclaim(env, old(runs[r]), now)]
      ensures reclaimed == StaleRows(env, old(runs[r]), |old(runs[r]).steps|, now)
    {
      reclaimed := 0;
      var i := 0;
      ghost var was := runs[r];
      while i < |runs[r].steps|
        invariant |runs| == |old(runs)| && |runs[r].steps| == |was.steps| && 0 <= i <= |was.steps|
        invariant runs == old(runs)[r := ReclaimFirst(env, was, i, now)]
        invariant reclaimed == StaleRows(env, was, i, now)
      {
        ReclaimFirstLeaves(env, was, i, now);
        var row := runs[r].steps[i];
        var def := DefOf(env, runs[r], i);
        if row.status.Running? && row.lockedAt.Some? && row.lockedAt.value <= now - Timeout(env, def) {
          var canRetry := def.Some? && row.attempt < def.value.maxAttempts;
          row := row.(status := if canRetry then StepStatus.Pending else StepStatus.Failed, lockedAt := None);
          runs := runs[r := WithStep(runs[r], i, row)];
          if !canRetry {
            runs := runs[r := runs[r].(reason := ByFailure, status := RunStatus.Compensating)];
          }
          reclaimed := reclaimed + 1;
        }
        i := i + 1;
      }
    }

    /** Advance the listed runs once each, up to one whose process dies. */
    method AdvanceBatch(ids: seq<nat>, now: Time, world: World) returns (advanced: nat, died: bool)
      requires forall j :: 0 <= j < |ids| ==> ids[j] < |runs|
      modifies this`runs, this`events
      ensures Sweep(Db(runs, events), advanced, died) == TickLoop(env, old(Db(runs, events)), ids, now, world)
    {
      advanced, died := 0, false;
      ghost var start := Db(runs, events);
      ghost var total := TickLoop(env, start, ids, now, world);
      var j := 0;
      assert ids[j..] == ids;
      while j < |ids|
        invariant 0 <= j <= |ids| && |runs| == |start.runs| && !died
        invariant forall k :: 0 <= k < |ids| ==> ids[k] < |runs|
        invariant var rest := TickLoop(env, Db(runs, events), ids[j..], now, world);
                  total == rest.(advanced := rest.advanced + advanced)
      {
        LoopFrom(env, Db(runs, events), ids, j, now, world);
        var r := ids[j];
        var outcome := AdvanceOne(r, now, BodyFor(world, r, runs[r]), UndoFor(world, r, runs[r]));
        if outcome.ProcessDied? {
          died := true;
          return;
        }
        advanced := advanced + 1;
        j := j + 1;
      }
      assert ids[j..] == [];
    }

    /** Reclaim, then advance the oldest active runs once each. */
    method TickAll(now: Time, batchSize: Option<nat>, world: World) returns (advanced: nat, reclaimed: nat, died: bool)
      modifies this`runs, this`events
      ensures var s := TickAllSpec(env, old(Db(runs, events)), now, batchSize, world);
              Db(runs, events) == s.db && advanced == s.advanced && died == s.died
      ensures reclaimed == StaleTotal(env, old(runs), |old(runs)|, now)
    {
      reclaimed := ReclaimStaleSteps(now);
      advanced, died := AdvanceBatch(Batch(runs, Limit(env, batchSize)), now, world);
    }

    /** Start a run, or hand back the one that already holds the idempotency key. */
    method Start(tenant: string, pipeline: string, idempotencyKey: string, input: map<string, Json>, now: Time)
      returns (r: nat, created: bool)
      requires KeysUnique(runs)
      modifies this`runs
      ensures KeysUnique(runs)
      ensures created <==> idempotencyKey == "" ||
                           !exists q :: KeyHeldBy(old(runs), q, tenant, pipeline, idempotencyKey)
      ensures created ==> r == |old(runs)|
      ensures created ==>
                runs == old(runs) + [FreshRun(env, tenant, pipeline, idempotencyKey, input, now)]
      ensures !created ==> runs == old(runs) && KeyHeldBy(runs, r, tenant, pipeline, idempotencyKey)
    {
      var defs := env.registry(pipeline);
      r := 0;
      if idempotencyKey != "" {
        while r < |runs|
          invariant 0 <= r <= |runs|
          invariant forall q :: 0 <= q < r ==> !KeyHeldBy(runs, q, tenant, pipeline, idempotencyKey)
        {
          if runs[r].tenant == tenant && runs[r].pipeline == pipeline && runs[r].idempotencyKey == idempotencyKey {
            assert KeyHeldBy(runs, r, tenant, pipeline, idempotencyKey);
            return r, false;
          }
          r := r + 1;
        }
      }
      forall q | 0 <= q < |runs| && idempotencyKey != ""
        ensures !(runs[q].tenant == tenant && runs[q].pipeline == pipeline && runs[q].idempotencyKey == idempotencyKey)
      {
        assert !KeyHeldBy(runs, q, tenant, pipeline, idempotencyKey);
      }
      r := |runs|;
      var bare := FreshRun(env, tenant, pipeline, idempotencyKey, input, now).(steps := []);
      runs := runs + [bare];
      var index := 0;
      while index < |defs|
        invariant 0 <= index <= |defs|
        invariant runs == old(runs) + [bare.(steps := FreshSteps(defs)[..index])]
      {
        var row := FreshStep(defs[index].key);
        assert FreshSteps(defs)[..index + 1] == FreshSteps(defs)[..index] + [row];
        runs := runs[r := runs[r].(steps := runs[r].steps + [row])];
        index := index + 1;
      }
      assert FreshSteps(defs)[..|defs|] == FreshSteps(defs);
      return r, true;
    }

    /** Advance a run until it is terminal; past the deadline the caller gets a ConflictError. */
    method RunToCompletion(r: nat, clock: seq<Time>, world: World) returns (finished: bool)
      requires r < |runs| && clock != []
      modifies this`runs, this`events
      ensures (Db(runs, events), finished) == DrainSpec(env, old(Db(runs, events)), r, clock, world)
      ensures |runs| == |old(runs)| && (finished ==> Terminal(runs[r].status))
    {
      var left := clock;
      ghost var total := DrainSpec(env, Db(runs, events), r, clock, world);
      while !Terminal(runs[r].status)
        invariant |runs| == |old(runs)| && left != []
        invariant total == DrainSpec(env, Db(runs, events), r, left, world)
        decreases |left|
      {
        var outcome := AdvanceOne(r, left[0], BodyFor(world, r, runs[r]), UndoFor(world, r, runs[r]));
        if outcome.ProcessDied? || |left| == 1 {
          return false;
        }
        left := left[1..];
      }
      return true;
    }

    method RequestPause(r: nat) returns (result: Result<RunRow, ControlError>)
      requires r < |runs|
      modifies this`runs
      ensures Controlled(old(runs), r, Pause(old(runs[r])), runs, result)
    {
      if !(runs[r].status.Queued? || runs[r].status.Running?) {
        return Err(Conflict("Only a queued or running pipeline can be paused."));
      }
      runs := runs[r := runs[r].(status := RunStatus.Paused)];
      return Ok(runs[r]);
    }

    method RequestResume(r: nat) returns (result: Result<RunRow, ControlError>)
      requires r < |runs|
      modifies this`runs
      ensures Controlled(old(runs), r, Resume(old(runs[r])), runs, result)
    {
      var next := if runs[r].startedAt.Some? then RunStatus.Running else RunStatus.Queued;
      if !runs[r].status.Paused? {
        return Err(Conflict("Only a paused pipeline can be resumed."));
      }
      runs := runs[r := runs[r].(status := next)];
      return Ok(runs[r]);
    }

    method RequestCancel(r: nat) returns (result: Result<RunRow, ControlError>)
      requires r < |runs|
      modifies this`runs
      ensures Controlled(old(runs), r, Cancel(old(runs[r])), runs, result)
    {
      if !(runs[r].status.Queued? || runs[r].status.Running? || runs[r].status.Paused?) {
        return Err(Conflict("Only a queued, running, or paused pipeline can be cancelled."));
      }
      runs := runs[r := runs[r].(status := RunStatus.Compensating, reason := ByCancel)];
      return Ok(runs[r]);
    }

    method RequestRetry(r: nat) returns (result: Result<RunRow, ControlError>)
      requires r < |runs|
      modifies this`runs
      ensures Controlled(old(runs), r, Retry(old(runs[r])), runs, result)
    {
      if !runs[r].status.Failed? {
        return Err(Conflict("Only a failed pipeline can be retried."));
      }
      runs := runs[r := runs[r].(steps := Rearm(runs[r].steps), status := RunStatus.Queued, reason := NoReason)];
      return Ok(runs[r]);
    }
  }

  /** A control action either replaces its run by the new row or fails and changes nothing. */
  ghost predicate Controlled(before: seq<RunRow>, r: nat, wanted: Option<RunRow>, now: seq<RunRow>,
                             result: Result<RunRow, ControlError>)
    requires r < |before|
  {
    match wanted
    case Some(run) => now == before[r := run] && result == Ok(run)
    case None => now == before && result.Err?
  }

  lemma {:induction false} NoEvents(r: nat, log: seq<Obs>)
    requires forall k :: 0 <= k < |log| ==> !log[k].Published?
    ensures EventsOf(r, log) == []
  {
    if log != [] {
      NoEvents(r, log[..|log| - 1]);
    }
  }
}
