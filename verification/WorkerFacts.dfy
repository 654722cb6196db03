/** The single database operations, one by one: what each finds, what it writes to the run and where its worker
    stands afterwards. Guarded updates look at the row as it is now; the other saves write from copies the
    worker read earlier, over whatever has happened since. */
module WorkerFacts {
  import opened Wrappers
  import opened Workflow
  import opened EngineSpec
  import opened EngineFacts
  import opened Workers

  /** The run is as it was but for one step row. */
  ghost predicate OnlyRow(run: RunRow, r: RunRow, i: nat, row: StepRow) {
    && OnlyMoved(run, r, run.status, run.reason) && |r.steps| == |run.steps| > i && r.steps[i] == row
    && forall j :: 0 <= j < |run.steps| && j != i ==> r.steps[j] == run.steps[j]
  }

  /** Worker w goes on from here, or is done; no other worker moves. */
  ghost predicate StandsAt(s: State, t: State, w: nat, pc: Pc) {
    t.pcs == s.pcs[w := pc]
  }

  ghost predicate IsDone(s: State, t: State, w: nat) {
    t.pcs == s.pcs - {w}
  }

  /** Loading takes a copy of an active run. */
  lemma LoadsSay(env: Env, s: State, w: nat)
    ensures var t := Next(env, s, Load(w));
            && t.run == s.run && t.log == s.log
            && if w !in s.pcs && s.run.status in {RunStatus.Queued, RunStatus.Running, RunStatus.Compensating} then
                 StandsAt(s, t, w, Loaded(s.run))
               else t == s
  {}

  /** The copy's status and index decide what is read next: the step rows to undo, or the one row at the index, if
      it is there and not waiting for its time. */
  lemma ReadsSay(env: Env, s: State, w: nat, now: Time, body: BodyResult, undo: UndoResult)
    requires w in s.pcs && s.pcs[w].Loaded?
    ensures var snap := s.pcs[w].snap;
            var t := Next(env, s, Go(w, now, body, undo));
            && t.run == s.run && t.log == (if snap.status == RunStatus.Compensating then s.log + [TopRead] else s.log)
            && (snap.status == RunStatus.Compensating ==>
                  && (forall top: nat :: TopIs(s.run, top) ==> StandsAt(s, t, w, HasTop(top)))
                  && ((forall top: nat :: !TopIs(s.run, top)) ==> StandsAt(s, t, w, Skipping(snap))))
            && (snap.status != RunStatus.Compensating && snap.index >= |s.run.steps| ==>
                  StandsAt(s, t, w, Finishing(RunStatus.Success)))
            && (snap.status != RunStatus.Compensating && snap.index < |s.run.steps| ==>
                  var row := s.run.steps[snap.index];
                  if row.status == StepStatus.Pending && row.nextAttemptAt.Some? && now < row.nextAttemptAt.value then
                    IsDone(s, t, w)
                  else StandsAt(s, t, w, HasRow(snap)))
  {
    LastSuccess(s.run);
  }

  lemma LastSuccess(run: RunRow)
    ensures forall top: nat :: TopIs(run, top) ==> TopSuccess(run.steps) == Some(top)
    ensures (forall top: nat :: !TopIs(run, top)) ==> TopSuccess(run.steps) == None
  {
    assert TopSuccess(run.steps).Some? ==> TopIs(run, TopSuccess(run.steps).value);
  }

  /** A claim is won exactly if the row is still in the status it is claimed from, and then uses up one attempt
      and puts a lock on the row. */
  lemma ClaimsSay(env: Env, s: State, w: nat, now: Time, body: BodyResult, undo: UndoResult)
    requires w in s.pcs
    ensures var t := Next(env, s, Go(w, now, body, undo));
            match s.pcs[w]
            case HasRow(snap) =>
              if snap.index < |s.run.steps| && s.run.steps[snap.index].status == StepStatus.Pending then
                var row := s.run.steps[snap.index];
                && OnlyRow(s.run, t.run, snap.index, StepRow(row.key, StepStatus.Running, row.attempt + 1,
                                                             row.nextAttemptAt, Some(now), row.output))
                && StandsAt(s, t, w, ClaimWon(snap)) && t.log == s.log + [Won(snap.index)]
              else t.run == s.run && t.log == s.log && IsDone(s, t, w)
            case HasTop(top) =>
              if top < |s.run.steps| && s.run.steps[top].status == StepStatus.Success then
                var row := s.run.steps[top];
                && OnlyRow(s.run, t.run, top, StepRow(row.key, StepStatus.Compensating, row.attempt + 1,
                                                      row.nextAttemptAt, Some(now), row.output))
                && StandsAt(s, t, w, UndoOwned(top)) && t.log == s.log + [UndoWon(top)]
              else t.run == s.run && t.log == s.log && IsDone(s, t, w)
            case ClaimWon(snap) =>
              && t.run == s.run && t.log == s.log
              && if snap.index < |s.run.steps| then StandsAt(s, t, w, Refreshed(snap, s.run.steps[snap.index]))
                 else IsDone(s, t, w)
            case Refreshed(snap, row) =>
              && t.log == s.log && StandsAt(s, t, w, Ready(snap, row)) && t.run.steps == s.run.steps
              && if snap.status != RunStatus.Queued then t.run == s.run
                 else
                   t.run == RunRow(s.run.tenant, s.run.pipeline, s.run.idempotencyKey, RunStatus.Running, s.run.reason,
                                   s.run.index, s.run.steps, s.run.context, s.run.queuedAt,
                                   if snap.startedAt == None then Some(now) else snap.startedAt, s.run.finishedAt)
            case _ => true
  {}

  /** A body runs for the row as it was read after the claim; nothing is written while it runs. */
  lemma BodiesSay(env: Env, s: State, w: nat, now: Time, body: BodyResult, undo: UndoResult, d: nat)
    requires w in s.pcs && s.pcs[w].Ready?
    ensures var row, snap := s.pcs[w].row, s.pcs[w].snap;
            var defs := env.registry(s.run.pipeline);
            var t := Next(env, s, Go(w, now, body, undo));
            && t.run == s.run
            && ((forall c :: 0 <= c < |defs| ==> defs[c].key != row.key) ==>
                  t.log == s.log && StandsAt(s, t, w, Failing(snap, row, row.attempt, 0)))
            && (DefinedAt(defs, row.key, d) ==>
                  && t.log == s.log + [Ran(snap.index, row.attempt)]
                  && match body
                     case Dies => IsDone(s, t, w)
                     case Raises(_) =>
                       StandsAt(s, t, w, Failing(snap, row, defs[d].maxAttempts, defs[d].backoff(row.attempt)))
                     case Returns(output, _) => StandsAt(s, t, w, Succeeding(snap, row, output)))
  {
    var row, defs := s.pcs[w].row, env.registry(s.run.pipeline);
    var c := LookupIs(defs, row.key);
    if DefinedAt(defs, row.key, d) { LookupFinds(defs, row.key, d); }
  }

  /** The two saves of a success, and the one or two of a failure. The row keeps what else it says now; context and
      index are those of the copy read before the claim; a failed run is sent to compensation whatever it says. */
  lemma SavesSay(env: Env, s: State, w: nat, now: Time, body: BodyResult, undo: UndoResult)
    requires w in s.pcs
    ensures var t := Next(env, s, Go(w, now, body, undo));
            match s.pcs[w]
            case Succeeding(snap, row, output) =>
              if snap.index < |s.run.steps| then
                var b := s.run.steps[snap.index];
                && OnlyRow(s.run, t.run, snap.index,
                           StepRow(b.key, StepStatus.Success, b.attempt, b.nextAttemptAt, None, output))
                && StandsAt(s, t, w, StepSaved(snap, row, output)) && t.log == s.log + [SavedSuccess(snap.index)]
              else t.run == s.run && t.log == s.log && IsDone(s, t, w)
            case StepSaved(snap, row, output) =>
              && t.log == s.log && IsDone(s, t, w)
              && t.run == RunRow(s.run.tenant, s.run.pipeline, s.run.idempotencyKey, s.run.status, s.run.reason,
                                 snap.index + 1, s.run.steps, snap.context[row.key := output], s.run.queuedAt,
                                 s.run.startedAt, s.run.finishedAt)
            case Failing(snap, row, limit, delay) =>
              && t.log == s.log
              && (snap.index >= |s.run.steps| ==> t.run == s.run && IsDone(s, t, w))
              && (snap.index < |s.run.steps| ==>
                    var b := s.run.steps[snap.index];
                    if row.attempt < limit then
                      && OnlyRow(s.run, t.run, snap.index,
                                 StepRow(b.key, StepStatus.Pending, b.attempt, Some(now + delay), None, b.output))
                      && IsDone(s, t, w)
                    else
                      && OnlyRow(s.run, t.run, snap.index,
                                 StepRow(b.key, StepStatus.Failed, b.attempt, b.nextAttemptAt, None, b.output))
                      && StandsAt(s, t, w, FailureSaved))
            case FailureSaved =>
              && t.log == s.log && IsDone(s, t, w) && t.run.steps == s.run.steps
              && OnlyMoved(s.run, t.run, RunStatus.Compensating, ByFailure)
            case _ => true
  {}

  /** A compensation runs for the step's definition, if it has one; its outcome is saved on the row as it is now. */
  lemma UndosSay(env: Env, s: State, w: nat, now: Time, body: BodyResult, undo: UndoResult)
    requires w in s.pcs && (s.pcs[w].UndoOwned? || s.pcs[w].UndoRan?) && s.pcs[w].top < |s.run.steps|
    ensures var top := s.pcs[w].top;
            var b := s.run.steps[top];
            var t := Next(env, s, Go(w, now, body, undo));
            && t.log == s.log
            && (s.pcs[w].UndoOwned? ==>
                  var canUndo := Undoable(env.registry(s.run.pipeline), b.key);
                  && t.run == s.run
                  && if canUndo && undo == UndoDies then IsDone(s, t, w)
                     else StandsAt(s, t, w, UndoRan(top, canUndo && undo == UndoRaises)))
            && (s.pcs[w].UndoRan? ==>
                  && IsDone(s, t, w)
                  && OnlyRow(s.run, t.run, top,
                             StepRow(b.key, if s.pcs[w].failed then StepStatus.CompensationFailed
                                            else StepStatus.Compensated, b.attempt, b.nextAttemptAt, None, b.output)))
  {
    UndoableIs(env.registry(s.run.pipeline), s.run.steps[s.pcs[w].top].key);
  }

  /** The end of a run: pending steps are skipped, the status is decided by the copy's reason, and the run ends only
      if it is still active; the announcement comes two operations later, of that status, even if the run has
      moved on. */
  lemma EndsSay(env: Env, s: State, w: nat, now: Time, body: BodyResult, undo: UndoResult)
    requires w in s.pcs
    ensures var t := Next(env, s, Go(w, now, body, undo));
            match s.pcs[w]
            case Skipping(snap) =>
              && t.log == s.log && OnlyMoved(s.run, t.run, s.run.status, s.run.reason)
              && StandsAt(s, t, w, Finishing(if snap.reason == ByCancel then RunStatus.Cancelled else RunStatus.Failed))
              && |t.run.steps| == |s.run.steps|
              && (forall i :: 0 <= i < |s.run.steps| ==>
                    var b := s.run.steps[i];
                    t.run.steps[i] == if b.status != StepStatus.Pending then b else
                      StepRow(b.key, StepStatus.Skipped, b.attempt, b.nextAttemptAt, b.lockedAt, b.output))
            case Finishing(status) =>
              if s.run.status in {RunStatus.Queued, RunStatus.Running, RunStatus.Compensating} then
                && t.log == s.log + [FinishWon(status)] && StandsAt(s, t, w, Refreshing(status))
                && t.run == RunRow(s.run.tenant, s.run.pipeline, s.run.idempotencyKey, status, s.run.reason,
                                   s.run.index, s.run.steps, s.run.context, s.run.queuedAt, s.run.startedAt, Some(now))
              else t.run == s.run && t.log == s.log && IsDone(s, t, w)
            case Refreshing(status) => t.run == s.run && t.log == s.log && StandsAt(s, t, w, Publishing(status))
            case Publishing(status) =>
              && t.run == s.run && IsDone(s, t, w)
              && (status == RunStatus.Success ==> t.log == s.log + [Announced(status, WorkflowCompleted)])
              && (status == RunStatus.Failed ==> t.log == s.log + [Announced(status, WorkflowFailed)])
              && (status == RunStatus.Cancelled ==> t.log == s.log + [Announced(status, WorkflowCancelled)])
            case _ => true
  {}

  /** A reclaim takes a row only if it is still RUNNING under the very lock it saw, then perhaps fails the run,
      whatever that says; a retry re-arms the rows, then queues the run, whatever that says. */
  lemma RecoveriesSay(env: Env, s: State, w: nat, now: Time, body: BodyResult, undo: UndoResult)
    requires w in s.pcs
    ensures var t := Next(env, s, Go(w, now, body, undo));
            match s.pcs[w]
            case SawStale(i, seen, canRetry) =>
              && t.log == s.log
              && if i < |s.run.steps| && s.run.steps[i].status == StepStatus.Running &&
                    s.run.steps[i].lockedAt == seen.lockedAt then
                   var b := s.run.steps[i];
                   && OnlyRow(s.run, t.run, i, StepRow(b.key,
                        if canRetry then StepStatus.Pending else StepStatus.Failed, b.attempt, b.nextAttemptAt, None,
                        b.output))
                   && if canRetry then IsDone(s, t, w) else StandsAt(s, t, w, Exhausting)
                 else t.run == s.run && IsDone(s, t, w)
            case Exhausting =>
              && t.log == s.log && IsDone(s, t, w) && t.run.steps == s.run.steps
              && OnlyMoved(s.run, t.run, RunStatus.Compensating, ByFailure)
            case WantsRetry =>
              && t.log == s.log && StandsAt(s, t, w, Rearmed) && OnlyMoved(s.run, t.run, s.run.status, s.run.reason)
              && |t.run.steps| == |s.run.steps|
              && (forall i :: 0 <= i < |s.run.steps| ==>
                    var b := s.run.steps[i];
                    t.run.steps[i] == if b.status in {StepStatus.Failed, StepStatus.Skipped} then
                      StepRow(b.key, StepStatus.Pending, b.attempt, None, b.lockedAt, b.output) else b)
            case Rearmed =>
              && t.log == s.log && IsDone(s, t, w) && t.run.steps == s.run.steps
              && OnlyMoved(s.run, t.run, RunStatus.Queued, NoReason)
            case _ => true
  {}

  /** What else happens: a death loses the worker, and the announcement it owed, and nothing else; a scan and a
      retry request only look; a resume writes the status its caller chose before. */
  lemma OutsidersSay(env: Env, s: State, w: nat, i: nat, now: Time, started: bool)
    ensures w in s.pcs ==>
              var t := Next(env, s, Kill(w));
              && t.run == s.run && IsDone(s, t, w)
              && t.log == s.log + if s.pcs[w].Refreshing? || s.pcs[w].Publishing? then [Lost(s.pcs[w].status)] else []
    ensures w !in s.pcs ==> Next(env, s, Kill(w)) == s
    ensures var t := Next(env, s, Scan(w, i, now));
            && t.run == s.run && t.log == s.log
            && if w !in s.pcs && i < |s.run.steps| && ReclaimStep(env, s.run, i, now) != s.run then
                 var again := ReclaimStep(env, s.run, i, now).steps[i].status == StepStatus.Pending;
                 StandsAt(s, t, w, SawStale(i, s.run.steps[i], again))
               else t == s
    ensures var t := Next(env, s, AskRetry(w));
            && t.run == s.run && t.log == s.log
            && if w !in s.pcs && s.run.status == RunStatus.Failed then StandsAt(s, t, w, WantsRetry) else t == s
    ensures var t := Next(env, s, ResumeOp(started));
            && t.pcs == s.pcs && t.log == s.log && t.run.steps == s.run.steps
            && if s.run.status == RunStatus.Paused then
                 OnlyMoved(s.run, t.run, if started then RunStatus.Running else RunStatus.Queued, s.run.reason)
               else t.run == s.run
  {
    if i < |s.run.steps| && Stale(env, s.run, i, now) {
      assert ReclaimStep(env, s.run, i, now).steps[i] != s.run.steps[i];
    }
  }
}
