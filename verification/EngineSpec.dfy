/** What one call of the engine does to one run row, as functions on values. The methods of
    module Engine are proved equal to these, and the theorems about runs are proved on them. */
module EngineSpec {
  import opened Wrappers
  import opened Workflow

  /** Observable facts a call leaves behind, in order. */
  datatype Obs =
    | Claimed(step: nat)
    | Executed(step: nat, attempt: nat)
    | Recorded(step: nat)
    | UndoClaimed(step: nat)
    | Published(event: Event)
    | Retried

  datatype Effect = Effect(run: RunRow, outcome: Outcome, log: seq<Obs>)

  function Claim(s: StepRow, to: StepStatus, now: Time): StepRow {
    s.(status := to, attempt := s.attempt + 1, lockedAt := Some(now))
  }

  function WithStep(run: RunRow, i: nat, s: StepRow): RunRow
    requires i < |run.steps|
  {
    run.(steps := run.steps[i := s])
  }

  function Finish(run: RunRow, status: RunStatus, now: Time): Effect {
    if Active(run.status) then
      Effect(run.(status := status, finishedAt := Some(now)), RunFinished, [Published(EventFor(status))])
    else
      Effect(run, RunFinished, [])
  }

  function FailStep(run: RunRow, i: nat, limit: int, delay: int, at: Time): RunRow
    requires i < |run.steps|
  {
    var s := run.steps[i];
    if s.attempt < limit then
      WithStep(run, i, s.(status := StepStatus.Pending, lockedAt := None, nextAttemptAt := Some(at + delay)))
    else
      WithStep(run, i, s.(status := StepStatus.Failed, lockedAt := None))
      .(reason := ByFailure, status := RunStatus.Compensating)
  }

  function SucceedStep(run: RunRow, i: nat, output: Json): RunRow
    requires i < |run.steps|
  {
    var s := run.steps[i];
    WithStep(run, i, s.(status := StepStatus.Success, output := output, lockedAt := None))
    .(context := run.context[s.key := output], index := run.index + 1)
  }

  /** The claim of the step at the index, and the first such claim starting the run. */
  function BeginStep(run: RunRow, now: Time): RunRow
    requires run.index < |run.steps|
  {
    var claimed := WithStep(run, run.index, Claim(run.steps[run.index], StepStatus.Running, now));
    if run.status.Queued? then
      claimed.(status := RunStatus.Running,
               startedAt := if run.startedAt.Some? then run.startedAt else Some(now))
    else claimed
  }

  function RunStep(env: Env, run: RunRow, now: Time, body: BodyResult): Effect
    requires run.index < |run.steps|
  {
    var i := run.index;
    var begun := BeginStep(run, now);
    var attempt := begun.steps[i].attempt;
    match DefOf(env, run, i)
    case None => Effect(FailStep(begun, i, attempt, 0, now), Retrying, [Claimed(i)])
    case Some(d) =>
      match body
      case Dies => Effect(begun, ProcessDied, [Claimed(i), Executed(i, attempt)])
      case Raises(took) =>
        Effect(FailStep(begun, i, d.maxAttempts, d.backoff(attempt), now + took), Retrying,
               [Claimed(i), Executed(i, attempt)])
      case Returns(output, took) =>
        Effect(SucceedStep(begun, i, output), StepSucceeded,
               [Claimed(i), Executed(i, attempt), Recorded(i)])
  }

  predicate WaitsForBackoff(s: StepRow, now: Time) {
    s.status.Pending? && s.nextAttemptAt.Some? && s.nextAttemptAt.value > now
  }

  /** One call of advance_one. */
  function Advance(env: Env, run: RunRow, now: Time, body: BodyResult, undo: UndoResult): Effect {
    if run.status.Paused? then Effect(run, PausedOutcome, [])
    else if run.status.Compensating? then AdvanceCompensation(env, run, now, undo)
    else if run.index >= |run.steps| then Finish(run, RunStatus.Success, now)
    else if WaitsForBackoff(run.steps[run.index], now) then Effect(run, NotDue, [])
    else if !run.steps[run.index].status.Pending? then Effect(run, AlreadyClaimed, [])
    else RunStep(env, run, now, body)
  }

  /** The highest step whose status is SUCCESS. */
  function TopSuccess(steps: seq<StepRow>): (top: Option<nat>)
    ensures top.None? ==> forall i :: 0 <= i < |steps| ==> !steps[i].status.Success?
    ensures top.Some? ==> top.value < |steps| && steps[top.value].status.Success?
    ensures top.Some? ==> forall i :: top.value < i < |steps| ==> !steps[i].status.Success?
  {
    if steps == [] then None
    else if steps[|steps| - 1].status.Success? then Some(|steps| - 1)
    else TopSuccess(steps[..|steps| - 1])
  }

  function SkipPending(steps: seq<StepRow>): (r: seq<StepRow>)
    ensures |r| == |steps|
    ensures forall i :: 0 <= i < |steps| ==>
              r[i] == if steps[i].status.Pending? then steps[i].(status := StepStatus.Skipped) else steps[i]
  {
    seq(|steps|, i requires 0 <= i < |steps| =>
      if steps[i].status.Pending? then steps[i].(status := StepStatus.Skipped) else steps[i])
  }

  function FinalStatus(reason: Reason): RunStatus {
    if reason.ByCancel? then RunStatus.Cancelled else RunStatus.Failed
  }

  function UndoStep(env: Env, run: RunRow, i: nat, now: Time, undo: UndoResult): Effect
    requires i < |run.steps|
  {
    var claimed := Claim(run.steps[i], StepStatus.Compensating, now);
    var d := DefOf(env, run, i);
    if d.None? || !d.value.hasUndo || undo.UndoReturns? then
      Effect(WithStep(run, i, claimed.(status := StepStatus.Compensated, lockedAt := None)),
             StepCompensated, [UndoClaimed(i)])
    else if undo.UndoRaises? then
      Effect(WithStep(run, i, claimed.(status := StepStatus.CompensationFailed, lockedAt := None)),
             StepCompensated, [UndoClaimed(i)])
    else
      Effect(WithStep(run, i, claimed), ProcessDied, [UndoClaimed(i)])
  }

  function AdvanceCompensation(env: Env, run: RunRow, now: Time, undo: UndoResult): Effect {
    match TopSuccess(run.steps)
    case None => Finish(run.(steps := SkipPending(run.steps)), FinalStatus(run.reason), now)
    case Some(i) => UndoStep(env, run, i, now, undo)
  }

  /* ---- crash recovery ---- */

  function Timeout(env: Env, d: Option<StepDef>): int {
    if d.Some? && d.value.timeout.Some? then d.value.timeout.value else env.staleTimeout
  }

  predicate Stale(env: Env, run: RunRow, i: nat, now: Time)
    requires i < |run.steps|
  {
    var s := run.steps[i];
    s.status.Running? && s.lockedAt.Some? && s.lockedAt.value <= now - Timeout(env, DefOf(env, run, i))
  }

  function ReclaimStep(env: Env, run: RunRow, i: nat, now: Time): RunRow
    requires i < |run.steps|
  {
    if !Stale(env, run, i, now) then run
    else
      var s := run.steps[i];
      var d := DefOf(env, run, i);
      if d.Some? && s.attempt < d.value.maxAttempts then
        WithStep(run, i, s.(status := StepStatus.Pending, lockedAt := None))
      else
        WithStep(run, i, s.(status := StepStatus.Failed, lockedAt := None))
        .(reason := ByFailure, status := RunStatus.Compensating)
  }

  /** The first k step rows of a run, reclaimed in order. */
  function ReclaimFirst(env: Env, run: RunRow, k: nat, now: Time): (r: RunRow)
    requires k <= |run.steps|
    ensures |r.steps| == |run.steps|
  {
    if k == 0 then run else ReclaimStep(env, ReclaimFirst(env, run, k - 1, now), k - 1, now)
  }

  function Reclaim(env: Env, run: RunRow, now: Time): RunRow {
    ReclaimFirst(env, run, |run.steps|, now)
  }

  /* ---- operator controls; None is the ConflictError ---- */

  function Pause(run: RunRow): Option<RunRow> {
    if run.status.Queued? || run.status.Running? then Some(run.(status := RunStatus.Paused)) else None
  }

  function Resume(run: RunRow): Option<RunRow> {
    if run.status.Paused? then
      Some(run.(status := if run.startedAt.Some? then RunStatus.Running else RunStatus.Queued))
    else None
  }

  function Cancel(run: RunRow): Option<RunRow> {
    if Forward(run.status) then Some(run.(status := RunStatus.Compensating, reason := ByCancel)) else None
  }

  function Rearm(steps: seq<StepRow>): (r: seq<StepRow>)
    ensures |r| == |steps|
    ensures forall i :: 0 <= i < |steps| ==>
              r[i] == if steps[i].status.Failed? || steps[i].status.Skipped?
                      then steps[i].(status := StepStatus.Pending, nextAttemptAt := None) else steps[i]
  {
    seq(|steps|, i requires 0 <= i < |steps| =>
      if steps[i].status.Failed? || steps[i].status.Skipped?
      then steps[i].(status := StepStatus.Pending, nextAttemptAt := None) else steps[i])
  }

  function Retry(run: RunRow): Option<RunRow> {
    if run.status.Failed? then
      Some(run.(steps := Rearm(run.steps), status := RunStatus.Queued, reason := NoReason))
    else None
  }

  /* ---- whole histories of one run ---- */

  /** A step definition snapshot as fresh pending rows. */
  function FreshSteps(defs: seq<StepDef>): (r: seq<StepRow>)
    ensures |r| == |defs|
    ensures forall i :: 0 <= i < |defs| ==> r[i] == FreshStep(defs[i].key)
  {
    seq(|defs|, i requires 0 <= i < |defs| => FreshStep(defs[i].key))
  }

  function FreshStep(key: string): StepRow {
    StepRow(key, StepStatus.Pending, 0, None, None, "")
  }

  function FreshRun(env: Env, tenant: string, pipeline: string, idempotencyKey: string,
                    input: map<string, Json>, now: Time): RunRow {
    RunRow(tenant, pipeline, idempotencyKey, RunStatus.Queued, NoReason, 0,
           FreshSteps(env.registry(pipeline)), input, now, None, None)
  }

  datatype Action =
    | Tick(now: Time, body: BodyResult, undo: UndoResult)
    | ReclaimAt(now: Time)
    | PauseRun
    | ResumeRun
    | CancelRun
    | RetryRun

  function OrElse(o: Option<RunRow>, run: RunRow): RunRow {
    if o.Some? then o.value else run
  }

  /** One atomic action on a run. Both callers of advance_one leave terminal runs alone, and a
      refused control action changes nothing. */
  function Apply(env: Env, run: RunRow, a: Action): Effect {
    match a
    case Tick(now, body, undo) =>
      if Terminal(run.status) then Effect(run, NotAnAdvance, []) else Advance(env, run, now, body, undo)
    case ReclaimAt(now) => Effect(Reclaim(env, run, now), NotAnAdvance, [])
    case PauseRun => Effect(OrElse(Pause(run), run), NotAnAdvance, [])
    case ResumeRun => Effect(OrElse(Resume(run), run), NotAnAdvance, [])
    case CancelRun => Effect(OrElse(Cancel(run), run), NotAnAdvance, [])
    case RetryRun => Effect(OrElse(Retry(run), run), NotAnAdvance, if run.status.Failed? then [Retried] else [])
  }

  datatype History = History(run: RunRow, log: seq<Obs>)

  /** The run and everything observed after a whole sequence of actions. */
  function After(env: Env, start: History, actions: seq<Action>): History
    decreases |actions|
  {
    if actions == [] then start
    else
      var h := After(env, start, actions[..|actions| - 1]);
      var e := Apply(env, h.run, actions[|actions| - 1]);
      History(e.run, h.log + e.log)
  }
}
