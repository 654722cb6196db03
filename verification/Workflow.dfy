/** The rows and definitions of the pipeline engine: platform/workflow/models.py and registry.py.
    A run row holds its step rows in order, so the position of a row is its step_index. */
module Workflow {
  import opened Wrappers

  type Time = int
  type Json = string

  datatype RunStatus = Queued | Running | Paused | Compensating | Success | Failed | Cancelled

  datatype StepStatus =
    | Pending | Running | Success | Failed | Skipped
    | Compensating | Compensated | CompensationFailed

  datatype Reason = NoReason | ByFailure | ByCancel

  datatype Event = WorkflowCompleted | WorkflowFailed | WorkflowCancelled

  datatype StepRow = StepRow(
    key: string,
    status: StepStatus,
    attempt: nat,
    nextAttemptAt: Option<Time>,
    lockedAt: Option<Time>,
    output: Json)

  datatype RunRow = RunRow(
    tenant: string,
    pipeline: string,
    idempotencyKey: string,
    status: RunStatus,
    reason: Reason,
    index: nat,
    steps: seq<StepRow>,
    context: map<string, Json>,
    queuedAt: Time,
    startedAt: Option<Time>,
    finishedAt: Option<Time>)

  /** A step as code: the two callables `run` and `compensate` are not here, their results are
      supplied from outside as BodyResult and UndoResult. */
  datatype StepDef = StepDef(
    key: string,
    maxAttempts: int,
    backoff: nat -> int,
    timeout: Option<int>,
    hasUndo: bool)

  /** A total registry: every pipeline key is registered, and the registry does not change. */
  datatype Env = Env(registry: string -> seq<StepDef>, staleTimeout: int, batchSize: nat)

  /** What one execution of a step body does. `took` is how long it ran; Dies is a process killed
      while the body runs. */
  datatype BodyResult = Returns(output: Json, took: nat) | Raises(took: nat) | Dies

  datatype UndoResult = UndoReturns | UndoRaises | UndoDies

  datatype Outcome =
    | StepSucceeded | Retrying | StepCompensated | RunFinished
    | PausedOutcome | NotDue | AlreadyClaimed
    | ProcessDied | NotAnAdvance

  predicate Active(s: RunStatus) {
    s.Queued? || s.Running? || s.Compensating?
  }

  predicate Terminal(s: RunStatus) {
    s.Success? || s.Failed? || s.Cancelled?
  }

  /** The forward statuses: a step body may still run. */
  predicate Forward(s: RunStatus) {
    s.Queued? || s.Running? || s.Paused?
  }

  /** The compensation of this step was at least begun. */
  predicate Undone(s: StepStatus) {
    s.Compensating? || s.Compensated? || s.CompensationFailed?
  }

  function EventFor(s: RunStatus): Event {
    match s
    case Failed => WorkflowFailed
    case Cancelled => WorkflowCancelled
    case _ => WorkflowCompleted
  }

  /** The first definition with this key, as the engine's `next(...)` finds it. */
  function FindStep(defs: seq<StepDef>, key: string): Option<StepDef> {
    if defs == [] then None
    else if defs[0].key == key then Some(defs[0])
    else FindStep(defs[1..], key)
  }

  function DefOf(env: Env, run: RunRow, i: nat): Option<StepDef>
    requires i < |run.steps|
  {
    FindStep(env.registry(run.pipeline), run.steps[i].key)
  }

  function Power2(n: nat): nat {
    if n == 0 then 1 else 2 * Power2(n - 1)
  }

  function DefaultBackoff(attempt: nat): int {
    Min(Power2(attempt), 300)
  }

  lemma {:induction false} Power2Grows(a: nat, b: nat)
    requires a <= b
    ensures 1 <= Power2(a) <= Power2(b)
  {
    if a < b {
      Power2Grows(a, b - 1);
    } else if a > 0 {
      Power2Grows(a - 1, b - 1);
    }
  }

  /** The default backoff waits at least a second, never shrinks from one attempt to a later one,
      and sits at its five-minute cap exactly from the ninth attempt on. */
  lemma DefaultBackoffShape(a: nat, b: nat)
    requires a <= b
    ensures 1 <= DefaultBackoff(a) <= DefaultBackoff(b) <= 300
    ensures DefaultBackoff(a) == 300 <==> a >= 9
  {
    Power2Grows(a, b);
    assert Power2(8) == 256 && Power2(9) == 512;
    if a >= 9 {
      Power2Grows(9, a);
    } else {
      Power2Grows(a, 8);
    }
  }
}
