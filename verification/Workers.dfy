/** The engine at the grain of single database operations. Any number of workers, reclaimers and
    operators interleave on one run; each worker carries the row copies it read earlier, as the
    code does, and its unconditional saves write from those copies. */
module Workers {
  import opened Wrappers
  import opened Workflow
  import opened EngineSpec

  /** Where a worker stands: the operation it performs next is decided by this value alone. */
  datatype Pc =
    | Loaded(snap: RunRow)
    | HasRow(snap: RunRow)
    | ClaimWon(snap: RunRow)
    | Refreshed(snap: RunRow, row: StepRow)
    | Ready(snap: RunRow, row: StepRow)
    | Succeeding(snap: RunRow, row: StepRow, output: Json)
    | Failing(snap: RunRow, row: StepRow, limit: int, delay: int)
    | StepSaved(snap: RunRow, row: StepRow, output: Json)
    | FailureSaved
    | HasTop(top: nat)
    | UndoOwned(top: nat)
    | UndoRan(top: nat, failed: bool)
    | Skipping(snap: RunRow)
    | Finishing(status: RunStatus)
    | Refreshing(status: RunStatus)
    | Publishing(status: RunStatus)
    | SawStale(step: nat, seen: StepRow, canRetry: bool)
    | Exhausting
    | WantsRetry
    | Rearmed

  datatype Fact =
    | Won(step: nat)
    | UndoWon(step: nat)
    | Ran(step: nat, attempt: nat)
    | SavedSuccess(step: nat)
    | TopRead
    | FinishWon(status: RunStatus)
    | Announced(status: RunStatus, event: Event)
    | Lost(status: RunStatus)

  datatype State = State(run: RunRow, pcs: map<nat, Pc>, log: seq<Fact>)

  datatype Op =
    | Load(w: nat)
    | Go(w: nat, now: Time, body: BodyResult, undo: UndoResult)
    | Kill(w: nat)
    | Scan(w: nat, step: nat, now: Time)
    | AskRetry(w: nat)
    | PauseOp
    | ResumeOp(started: bool)
    | CancelOp

  function At(s: State, w: nat, pc: Pc): State {
    s.(pcs := s.pcs[w := pc])
  }

  function Done(s: State, w: nat): State {
    s.(pcs := s.pcs - {w})
  }

  function Note(s: State, f: Fact): State {
    s.(log := s.log + [f])
  }

  function Put(s: State, i: nat, row: StepRow): State
    requires i < |s.run.steps|
  {
    s.(run := WithStep(s.run, i, row))
  }

  /** A step index read from a row copy always names a row: rows are never added or dropped. */
  predicate Names(s: State, i: nat) {
    i < |s.run.steps|
  }

  function ReadRow(s: State, w: nat, snap: RunRow, now: Time): State {
    if !Names(s, snap.index) then At(s, w, Finishing(RunStatus.Success))
    else if WaitsForBackoff(s.run.steps[snap.index], now) then Done(s, w)
    else At(s, w, HasRow(snap))
  }

  function ReadTop(s: State, w: nat, snap: RunRow): State {
    var top := TopSuccess(s.run.steps);
    Note(At(s, w, if top.None? then Skipping(snap) else HasTop(top.value)), TopRead)
  }

  function TryClaim(s: State, w: nat, snap: RunRow, now: Time): State {
    if Names(s, snap.index) && s.run.steps[snap.index].status.Pending? then
      Note(At(Put(s, snap.index, Claim(s.run.steps[snap.index], StepStatus.Running, now)), w, ClaimWon(snap)),
          Won(snap.index))
    else Done(s, w)
  }

  /** The first claim of a queued run marks it running; the save is unconditional. */
  function MarkRunning(s: State, w: nat, snap: RunRow, row: StepRow, now: Time): State {
    var s' := At(s, w, Ready(snap, row));
    if snap.status.Queued? then
      s'.(run := s'.run.(status := RunStatus.Running,
                         startedAt := if snap.startedAt.Some? then snap.startedAt else Some(now)))
    else s'
  }

  function RunBody(env: Env, s: State, w: nat, snap: RunRow, row: StepRow, body: BodyResult): State {
    match FindStep(env.registry(s.run.pipeline), row.key)
    case None => At(s, w, Failing(snap, row, row.attempt, 0))
    case Some(d) =>
      var s' := Note(s, Ran(snap.index, row.attempt));
      match body
      case Dies => Done(s', w)
      case Raises(_) => At(s', w, Failing(snap, row, d.maxAttempts, d.backoff(row.attempt)))
      case Returns(output, _) => At(s', w, Succeeding(snap, row, output))
  }

  function SaveSuccess(s: State, w: nat, snap: RunRow, row: StepRow, output: Json): State {
    if !Names(s, snap.index) then Done(s, w)
    else
      Note(At(Put(s, snap.index,
          s.run.steps[snap.index].(status := StepStatus.Success, output := output, lockedAt := None)),
              w, StepSaved(snap, row, output)), SavedSuccess(snap.index))
  }

  function SaveFailure(s: State, w: nat, snap: RunRow, row: StepRow, limit: int, delay: int, now: Time): State {
    if !Names(s, snap.index) then Done(s, w)
    else if row.attempt < limit then
      Done(Put(s, snap.index, s.run.steps[snap.index].(status := StepStatus.Pending, lockedAt := None,
                                                        nextAttemptAt := Some(now + delay))), w)
    else
      At(Put(s, snap.index, s.run.steps[snap.index].(status := StepStatus.Failed, lockedAt := None)), w, FailureSaved)
  }

  function TryUndo(s: State, w: nat, top: nat, now: Time): State {
    if Names(s, top) && s.run.steps[top].status.Success? then
      Note(At(Put(s, top, Claim(s.run.steps[top], StepStatus.Compensating, now)), w, UndoOwned(top)), UndoWon(top))
    else Done(s, w)
  }

  function RunUndo(env: Env, s: State, w: nat, top: nat, undo: UndoResult): State {
    var d := if Names(s, top) then FindStep(env.registry(s.run.pipeline), s.run.steps[top].key) else None;
    if d.None? || !d.value.hasUndo || undo.UndoReturns? then At(s, w, UndoRan(top, false))
    else if undo.UndoRaises? then At(s, w, UndoRan(top, true))
    else Done(s, w)
  }

  function SaveUndo(s: State, w: nat, top: nat, failed: bool): State {
    var result := if failed then StepStatus.CompensationFailed else StepStatus.Compensated;
    if Names(s, top) then Done(Put(s, top, s.run.steps[top].(status := result, lockedAt := None)), w) else Done(s, w)
  }

  function TryFinish(s: State, w: nat, status: RunStatus, now: Time): State {
    if Active(s.run.status) then
      Note(At(s.(run := s.run.(status := status, finishedAt := Some(now))), w, Refreshing(status)), FinishWon(status))
    else Done(s, w)
  }

  function TryReclaim(s: State, w: nat, i: nat, seen: StepRow, canRetry: bool): State {
    if Names(s, i) && s.run.steps[i].status.Running? && s.run.steps[i].lockedAt == seen.lockedAt then
      var row := s.run.steps[i];
      if canRetry then Done(Put(s, i, row.(status := StepStatus.Pending, lockedAt := None)), w)
      else At(Put(s, i, row.(status := StepStatus.Failed, lockedAt := None)), w, Exhausting)
    else Done(s, w)
  }

  /** The next database operation of worker w. */
  function Step(env: Env, s: State, w: nat, now: Time, body: BodyResult, undo: UndoResult): State
    requires w in s.pcs
  {
    match s.pcs[w]
    case Loaded(snap) => if snap.status.Compensating? then ReadTop(s, w, snap) else ReadRow(s, w, snap, now)
    case HasRow(snap) => TryClaim(s, w, snap, now)
    case ClaimWon(snap) =>
      if Names(s, snap.index) then At(s, w, Refreshed(snap, s.run.steps[snap.index])) else Done(s, w)
    case Refreshed(snap, row) => MarkRunning(s, w, snap, row, now)
    case Ready(snap, row) => RunBody(env, s, w, snap, row, body)
    case Succeeding(snap, row, output) => SaveSuccess(s, w, snap, row, output)
    case Failing(snap, row, limit, delay) => SaveFailure(s, w, snap, row, limit, delay, now)
    case StepSaved(snap, row, output) =>
      Done(s.(run := s.run.(context := snap.context[row.key := output], index := snap.index + 1)), w)
    case FailureSaved => Done(s.(run := s.run.(reason := ByFailure, status := RunStatus.Compensating)), w)
    case HasTop(top) => TryUndo(s, w, top, now)
    case UndoOwned(top) => RunUndo(env, s, w, top, undo)
    case UndoRan(top, failed) => SaveUndo(s, w, top, failed)
    case Skipping(snap) =>
      At(s.(run := s.run.(steps := SkipPending(s.run.steps))), w, Finishing(FinalStatus(snap.reason)))
    case Finishing(status) => TryFinish(s, w, status, now)
    case Refreshing(status) => At(s, w, Publishing(status))
    case Publishing(status) => Note(Done(s, w), Announced(status, EventFor(status)))
    case SawStale(i, seen, canRetry) => TryReclaim(s, w, i, seen, canRetry)
    case Exhausting => Done(s.(run := s.run.(reason := ByFailure, status := RunStatus.Compensating)), w)
    case WantsRetry => At(s.(run := s.run.(steps := Rearm(s.run.steps))), w, Rearmed)
    case Rearmed => Done(s.(run := s.run.(status := RunStatus.Queued, reason := NoReason)), w)
  }

  predicate Announcing(pc: Pc) {
    pc.Refreshing? || pc.Publishing?
  }

  function Next(env: Env, s: State, op: Op): State {
    match op
    case Load(w) => if w !in s.pcs && Active(s.run.status) then At(s, w, Loaded(s.run)) else s
    case Go(w, now, body, undo) => if w in s.pcs then Step(env, s, w, now, body, undo) else s
    case Kill(w) =>
      if w !in s.pcs then s
      else if Announcing(s.pcs[w]) then Note(Done(s, w), Lost(s.pcs[w].status))
      else Done(s, w)
    case Scan(w, i, now) =>
      if w !in s.pcs && i < |s.run.steps| && Stale(env, s.run, i, now) then
        var d := DefOf(env, s.run, i);
        At(s, w, SawStale(i, s.run.steps[i], d.Some? && s.run.steps[i].attempt < d.value.maxAttempts))
      else s
    case AskRetry(w) => if w !in s.pcs && s.run.status.Failed? then At(s, w, WantsRetry) else s
    case PauseOp => s.(run := OrElse(Pause(s.run), s.run))
    case ResumeOp(started) =>
      if s.run.status.Paused? then
        s.(run := s.run.(status := if started then RunStatus.Running else RunStatus.Queued))
      else s
    case CancelOp => s.(run := OrElse(Cancel(s.run), s.run))
  }

  /** The state after a whole interleaving. */
  function Interleave(env: Env, s: State, ops: seq<Op>): State
    decreases |ops|
  {
    if ops == [] then s else Next(env, Interleave(env, s, ops[..|ops| - 1]), ops[|ops| - 1])
  }

  function Count(log: seq<Fact>, f: Fact): nat {
    if log == [] then 0
    else Count(log[..|log| - 1], f) + if log[|log| - 1] == f then 1 else 0
  }

  lemma CountNote(log: seq<Fact>, g: Fact, f: Fact)
    ensures Count(log + [g], f) == Count(log, f) + if f == g then 1 else 0
  {
    assert (log + [g])[..|log + [g]| - 1] == log;
  }
}
