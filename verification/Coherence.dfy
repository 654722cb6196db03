/** What holds of every run the engine can produce: any mix of ticks, crashes, reclaims, pauses,
    resumes, cancels at any moment, and operator retries. */
module Coherence {
  import opened Wrappers
  import opened Workflow
  import opened EngineSpec

  /** No automatic retry is left for this step. */
  predicate Exhausted(d: Option<StepDef>, attempt: nat) {
    d.None? || attempt >= d.value.maxAttempts
  }

  ghost predicate Below(run: RunRow)
    requires run.index <= |run.steps|
  {
    forall i :: 0 <= i < run.index ==> run.steps[i].status.Success? || Undone(run.steps[i].status)
  }

  /** A row no worker ever claimed. */
  predicate Unclaimed(s: StepRow) {
    (s.status.Pending? || s.status.Skipped?) && s.attempt == 0 && s.lockedAt.None? && s.nextAttemptAt.None?
  }

  ghost predicate Above(run: RunRow) {
    forall i :: run.index < i < |run.steps| ==> Unclaimed(run.steps[i])
  }

  ghost predicate Head(env: Env, run: RunRow)
    requires run.index < |run.steps|
  {
    var s := run.steps[run.index];
    && (s.status.Pending? || s.status.Running? || s.status.Failed? || s.status.Skipped?)
    && (s.status.Running? <==> s.lockedAt.Some?)
    && (s.status.Running? || s.status.Failed? ==> s.attempt >= 1)
    && (s.status.Failed? ==> Exhausted(DefOf(env, run, run.index), s.attempt))
  }

  ghost predicate NoneIs(run: RunRow, s: StepStatus) {
    forall i :: 0 <= i < |run.steps| ==> run.steps[i].status != s
  }

  predicate HeadIs(run: RunRow, s: StepStatus) {
    run.index < |run.steps| && run.steps[run.index].status == s
  }

  ghost predicate StatusFits(run: RunRow)
  {
    match run.status
    case Queued => ForwardFits(run)
    case Paused => ForwardFits(run)
    case Running => ForwardFits(run) && run.startedAt.Some?
    case Compensating => ReasonFits(run)
    case Success => run.reason.NoReason? && run.index == |run.steps| && run.finishedAt.Some?
    case Failed =>
      run.reason.ByFailure? && HeadIs(run, StepStatus.Failed) && run.finishedAt.Some? &&
      NoneIs(run, StepStatus.Success) && NoneIs(run, StepStatus.Pending)
    case Cancelled =>
      run.reason.ByCancel? && run.finishedAt.Some? && NoneIs(run, StepStatus.Success) &&
      !HeadIs(run, StepStatus.Failed)
  }

  ghost predicate ForwardFits(run: RunRow) {
    && run.reason.NoReason?
    && (run.index < |run.steps| ==> HeadIs(run, StepStatus.Pending) || HeadIs(run, StepStatus.Running))
    && (forall i :: run.index < i < |run.steps| ==> run.steps[i].status.Pending?)
  }

  predicate ReasonFits(run: RunRow) {
    !run.reason.NoReason? && (run.reason.ByFailure? <==> HeadIs(run, StepStatus.Failed))
  }

  ghost predicate Coherent(env: Env, run: RunRow) {
    && run.index <= |run.steps|
    && Below(run)
    && Above(run)
    && (run.index < |run.steps| ==> Head(env, run))
    && StatusFits(run)
  }

  lemma FreshIsCoherent(env: Env, tenant: string, pipeline: string, key: string, input: map<string, Json>, now: Time)
    ensures Coherent(env, FreshRun(env, tenant, pipeline, key, input, now))
  {}

  lemma RunStepKeeps(env: Env, run: RunRow, now: Time, body: BodyResult)
    requires Coherent(env, run) && Active(run.status) && !run.status.Compensating?
    requires HeadIs(run, StepStatus.Pending)
    ensures Coherent(env, RunStep(env, run, now, body).run)
  {}

  lemma CompensationKeeps(env: Env, run: RunRow, now: Time, undo: UndoResult)
    requires Coherent(env, run) && run.status.Compensating?
    ensures Coherent(env, AdvanceCompensation(env, run, now, undo).run)
  {
    var e := AdvanceCompensation(env, run, now, undo);
    if TopSuccess(run.steps).None? {
      assert NoneIs(e.run, StepStatus.Success);
    }
  }

  /** The only row a reclaim can find RUNNING is the one at the index. */
  lemma {:induction false} ReclaimFirstIs(env: Env, run: RunRow, k: nat, now: Time)
    requires Coherent(env, run) && k <= |run.steps|
    ensures ReclaimFirst(env, run, k, now) ==
            if run.index < k then ReclaimStep(env, run, run.index, now) else run
  {
    if k > 0 {
      ReclaimFirstIs(env, run, k - 1, now);
    }
  }

  lemma ReclaimKeeps(env: Env, run: RunRow, now: Time)
    requires Coherent(env, run)
    ensures Coherent(env, Reclaim(env, run, now))
  {
    ReclaimFirstIs(env, run, |run.steps|, now);
    if run.index < |run.steps| && Stale(env, run, run.index, now) {
      assert run.steps[run.index].status.Running?;
    }
  }

  lemma ControlKeeps(env: Env, run: RunRow, a: Action)
    requires Coherent(env, run) && (a.PauseRun? || a.ResumeRun? || a.CancelRun? || a.RetryRun?)
    ensures Coherent(env, Apply(env, run, a).run)
  {}

  lemma ApplyKeeps(env: Env, run: RunRow, a: Action)
    requires Coherent(env, run)
    ensures Coherent(env, Apply(env, run, a).run)
  {
    match a
    case Tick(now, body, undo) =>
      if run.status.Compensating? {
        CompensationKeeps(env, run, now, undo);
      } else if Active(run.status) && HeadIs(run, StepStatus.Pending) {
        RunStepKeeps(env, run, now, body);
      }
    case ReclaimAt(now) => ReclaimKeeps(env, run, now);
    case _ => ControlKeeps(env, run, a);
  }

  lemma {:induction false} AlwaysCoherent(env: Env, start: History, actions: seq<Action>)
    requires Coherent(env, start.run)
    ensures Coherent(env, After(env, start, actions).run)
    decreases |actions|
  {
    if actions != [] {
      AlwaysCoherent(env, start, actions[..|actions| - 1]);
      ApplyKeeps(env, After(env, start, actions[..|actions| - 1]).run, actions[|actions| - 1]);
    }
  }
}
