/** What engine calls come to, written out field by field: rows and runs before and after, with none of
    the functions that compute them. */
module EngineFacts {
  import opened Wrappers
  import opened Workflow
  import opened EngineSpec
  import opened Coherence

  /** defs[d] is the definition a lookup of the key finds. */
  ghost predicate DefinedAt(defs: seq<StepDef>, key: string, d: nat) {
    d < |defs| && defs[d].key == key && forall c :: 0 <= c < d ==> defs[c].key != key
  }

  lemma {:induction false} LookupFinds(defs: seq<StepDef>, key: string, d: nat)
    requires DefinedAt(defs, key, d)
    ensures FindStep(defs, key) == Some(defs[d])
  {
    if d > 0 {
      assert forall c :: 0 <= c < d - 1 ==> defs[1..][c].key == defs[c + 1].key;
      LookupFinds(defs[1..], key, d - 1);
    }
  }

  lemma {:induction false} LookupIs(defs: seq<StepDef>, key: string) returns (d: nat)
    ensures FindStep(defs, key) == None <==> forall c :: 0 <= c < |defs| ==> defs[c].key != key
    ensures FindStep(defs, key).Some? ==> DefinedAt(defs, key, d) && FindStep(defs, key) == Some(defs[d])
  {
    d := 0;
    while d < |defs| && defs[d].key != key
      invariant d <= |defs| && forall c :: 0 <= c < d ==> defs[c].key != key
      invariant FindStep(defs, key) == FindStep(defs[d..], key)
    {
      assert defs[d..][1..] == defs[d + 1..];
      d := d + 1;
    }
  }

  /** The step has a definition, and that has a compensation. */
  ghost predicate Undoable(defs: seq<StepDef>, key: string) {
    exists d: nat :: DefinedAt(defs, key, d) && defs[d].hasUndo
  }

  lemma UndoableIs(defs: seq<StepDef>, key: string)
    ensures Undoable(defs, key) <==> FindStep(defs, key).Some? && FindStep(defs, key).value.hasUndo
  {
    var d := LookupIs(defs, key);
    forall c: nat | DefinedAt(defs, key, c) ensures FindStep(defs, key) == Some(defs[c]) {
      LookupFinds(defs, key, c);
    }
  }

  /** The default backoff is 1, 2, 4, ... seconds, doubling up to five minutes. */
  lemma DefaultBackoffDoubles(attempt: nat)
    ensures DefaultBackoff(0) == 1
    ensures DefaultBackoff(attempt + 1) == Min(2 * DefaultBackoff(attempt), 300)
  {
    DefaultBackoffShape(attempt, attempt + 1);
  }

  /** The groups of run statuses the engine and its callers test for. */
  lemma StatusGroups(s: RunStatus)
    ensures Active(s) <==> s in {RunStatus.Queued, RunStatus.Running, RunStatus.Compensating}
    ensures Terminal(s) <==> s in {RunStatus.Success, RunStatus.Failed, RunStatus.Cancelled}
    ensures Forward(s) <==> s in {RunStatus.Queued, RunStatus.Running, RunStatus.Paused}
  {}

  /* ---- one advance ---- */

  /** The step at the index is pending, and its time has come. */
  predicate Due(run: RunRow, now: Time) {
    && !run.status.Paused? && !run.status.Compensating? && run.index < |run.steps|
    && run.steps[run.index].status.Pending?
    && (run.steps[run.index].nextAttemptAt.Some? ==> run.steps[run.index].nextAttemptAt.value <= now)
  }

  /** The status and start time of a run once its due step is claimed. */
  predicate Begun(run: RunRow, now: Time, status: RunStatus, startedAt: Option<Time>) {
    if run.status.Queued? then
      status.Running? && startedAt == (if run.startedAt.Some? then run.startedAt else Some(now))
    else status == run.status && startedAt == run.startedAt
  }

  /** A body that returns makes its step SUCCESS with that output, puts the output in the context under the
      step's key, and moves the index up by one. */
  lemma AdvanceReturns(env: Env, run: RunRow, now: Time, output: Json, took: nat, undo: UndoResult, d: nat)
    requires Due(run, now) && DefinedAt(env.registry(run.pipeline), run.steps[run.index].key, d)
    ensures var i := run.index;
            var s := run.steps[i];
            var e := Advance(env, run, now, Returns(output, took), undo);
            && e.run.steps == run.steps[i := StepRow(s.key, StepStatus.Success, s.attempt + 1, s.nextAttemptAt, None,
                                                     output)]
            && Begun(run, now, e.run.status, e.run.startedAt)
            && e.run == RunRow(run.tenant, run.pipeline, run.idempotencyKey, e.run.status, run.reason, i + 1,
                               e.run.steps, run.context[s.key := output], run.queuedAt, e.run.startedAt,
                               run.finishedAt)
            && e.outcome == StepSucceeded && e.log == [Claimed(i), Executed(i, s.attempt + 1), Recorded(i)]
  {
    LookupFinds(env.registry(run.pipeline), run.steps[run.index].key, d);
  }

  /** A body that raises leaves its step pending until the failure plus the step's backoff, or, on the last
      attempt, FAILED and the run compensating for that reason. */
  lemma AdvanceRaises(env: Env, run: RunRow, now: Time, took: nat, undo: UndoResult, d: nat)
    requires Due(run, now) && DefinedAt(env.registry(run.pipeline), run.steps[run.index].key, d)
    ensures var i := run.index;
            var s := run.steps[i];
            var def := env.registry(run.pipeline)[d];
            var again := s.attempt + 1 < def.maxAttempts;
            var wait := now + took + def.backoff(s.attempt + 1);
            var e := Advance(env, run, now, Raises(took), undo);
            && e.run.steps == run.steps[i := if again then
                StepRow(s.key, StepStatus.Pending, s.attempt + 1, Some(wait), None, s.output)
              else StepRow(s.key, StepStatus.Failed, s.attempt + 1, s.nextAttemptAt, None, s.output)]
            && (if again then Begun(run, now, e.run.status, e.run.startedAt)
                else e.run.status.Compensating? &&
                     e.run.startedAt ==
                       if run.status.Queued? && run.startedAt.None? then Some(now) else run.startedAt)
            && e.run == RunRow(run.tenant, run.pipeline, run.idempotencyKey, e.run.status,
                               if again then run.reason else ByFailure, i, e.run.steps, run.context, run.queuedAt,
                               e.run.startedAt, run.finishedAt)
            && e.outcome == Retrying && e.log == [Claimed(i), Executed(i, s.attempt + 1)]
  {
    LookupFinds(env.registry(run.pipeline), run.steps[run.index].key, d);
  }

  /** A step whose definition is gone fails at once, without running and whatever attempts are left. */
  lemma AdvanceUndefined(env: Env, run: RunRow, now: Time, body: BodyResult, undo: UndoResult)
    requires Due(run, now)
    requires forall c :: 0 <= c < |env.registry(run.pipeline)| ==>
               env.registry(run.pipeline)[c].key != run.steps[run.index].key
    ensures var i := run.index;
            var s := run.steps[i];
            var e := Advance(env, run, now, body, undo);
            && e.run.steps == run.steps[i := StepRow(s.key, StepStatus.Failed, s.attempt + 1, s.nextAttemptAt, None,
                                                     s.output)]
            && e.run == RunRow(run.tenant, run.pipeline, run.idempotencyKey, RunStatus.Compensating, ByFailure, i,
                               e.run.steps, run.context, run.queuedAt,
                               if run.status.Queued? && run.startedAt.None? then Some(now) else run.startedAt,
                               run.finishedAt)
            && e.outcome == Retrying && e.log == [Claimed(i)]
  {
    var d := LookupIs(env.registry(run.pipeline), run.steps[run.index].key);
  }

  /** A process that dies in a body leaves the step RUNNING under its lock, one attempt used. */
  lemma AdvanceDies(env: Env, run: RunRow, now: Time, undo: UndoResult, d: nat)
    requires Due(run, now) && DefinedAt(env.registry(run.pipeline), run.steps[run.index].key, d)
    ensures var i := run.index;
            var s := run.steps[i];
            var e := Advance(env, run, now, Dies, undo);
            && e.run.steps == run.steps[i := StepRow(s.key, StepStatus.Running, s.attempt + 1, s.nextAttemptAt,
                                                     Some(now), s.output)]
            && Begun(run, now, e.run.status, e.run.startedAt)
            && e.run == RunRow(run.tenant, run.pipeline, run.idempotencyKey, e.run.status, run.reason, i,
                               e.run.steps, run.context, run.queuedAt, e.run.startedAt, run.finishedAt)
            && e.outcome == ProcessDied && e.log == [Claimed(i), Executed(i, s.attempt + 1)]
  {
    LookupFinds(env.registry(run.pipeline), run.steps[run.index].key, d);
  }

  /** An advance that finds nothing due changes nothing and says why; one past the last step finishes an
      active run. */
  lemma AdvanceHolds(env: Env, run: RunRow, now: Time, body: BodyResult, undo: UndoResult)
    requires !run.status.Compensating? && !Due(run, now)
    ensures var e := Advance(env, run, now, body, undo);
            if !run.status.Paused? && run.index >= |run.steps| && Active(run.status) then
              e == Effect(RunRow(run.tenant, run.pipeline, run.idempotencyKey, RunStatus.Success, run.reason,
                                 run.index, run.steps, run.context, run.queuedAt, run.startedAt, Some(now)),
                          RunFinished, [Published(WorkflowCompleted)])
            else
              && e.run == run && e.log == []
              && e.outcome == if run.status.Paused? then PausedOutcome
                              else if run.index >= |run.steps| then RunFinished
                              else if run.steps[run.index].status.Pending? then NotDue
                              else AlreadyClaimed
  {}

  /** The highest step that says SUCCESS. */
  ghost predicate TopIs(run: RunRow, top: nat) {
    top < |run.steps| && run.steps[top].status.Success? &&
    forall i :: top < i < |run.steps| ==> !run.steps[i].status.Success?
  }

  /** One compensation call undoes the highest step that says SUCCESS and touches no other. */
  lemma UnwindsTop(env: Env, run: RunRow, now: Time, body: BodyResult, undo: UndoResult, top: nat)
    requires run.status.Compensating? && TopIs(run, top)
    ensures var s := run.steps[top];
            var defs := env.registry(run.pipeline);
            var canUndo := Undoable(defs, s.key);
            var e := Advance(env, run, now, body, undo);
            && e.log == [UndoClaimed(top)]
            && e.run == RunRow(run.tenant, run.pipeline, run.idempotencyKey, run.status, run.reason, run.index,
                               e.run.steps, run.context, run.queuedAt, run.startedAt, run.finishedAt)
            && (if canUndo && undo.UndoDies? then
                  && e.outcome == ProcessDied
                  && e.run.steps == run.steps[top := StepRow(s.key, StepStatus.Compensating, s.attempt + 1,
                                                             s.nextAttemptAt, Some(now), s.output)]
                else
                  && e.outcome == StepCompensated
                  && e.run.steps == run.steps[top := StepRow(s.key,
                       if canUndo && undo.UndoRaises? then StepStatus.CompensationFailed else StepStatus.Compensated,
                       s.attempt + 1, s.nextAttemptAt, None, s.output)])
  {
    UndoableIs(env.registry(run.pipeline), run.steps[top].key);
    assert TopSuccess(run.steps) == Some(top);
  }

  /** With nothing left to undo the pending steps are skipped and the run ends by its reason. */
  lemma UnwindEnds(env: Env, run: RunRow, now: Time, body: BodyResult, undo: UndoResult)
    requires run.status.Compensating?
    requires forall i :: 0 <= i < |run.steps| ==> !run.steps[i].status.Success?
    ensures var e := Advance(env, run, now, body, undo);
            var cancelled := run.reason.ByCancel?;
            && |e.run.steps| == |run.steps|
            && (forall i :: 0 <= i < |run.steps| ==>
                  var s := run.steps[i];
                  e.run.steps[i] == StepRow(s.key, if s.status.Pending? then StepStatus.Skipped else s.status,
                                            s.attempt, s.nextAttemptAt, s.lockedAt, s.output))
            && e.run == RunRow(run.tenant, run.pipeline, run.idempotencyKey,
                               if cancelled then RunStatus.Cancelled else RunStatus.Failed, run.reason, run.index,
                               e.run.steps, run.context, run.queuedAt, run.startedAt, Some(now))
            && e.outcome == RunFinished
            && e.log == [Published(if cancelled then WorkflowCancelled else WorkflowFailed)]
  {}

  /* ---- operator controls and creation ---- */

  /** A run with another status, reason and step rows, and everything else as it was. */
  ghost predicate OnlyMoved(run: RunRow, r: RunRow, status: RunStatus, reason: Reason) {
    r == RunRow(run.tenant, run.pipeline, run.idempotencyKey, status, reason, run.index, r.steps, run.context,
                run.queuedAt, run.startedAt, run.finishedAt)
  }

  /** Which control actions a run accepts, by its status alone, and what becomes of it. */
  lemma ControlsSay(run: RunRow)
    ensures Pause(run).Some? <==> run.status in {RunStatus.Queued, RunStatus.Running}
    ensures Resume(run).Some? <==> run.status == RunStatus.Paused
    ensures Cancel(run).Some? <==> run.status in {RunStatus.Queued, RunStatus.Running, RunStatus.Paused}
    ensures Retry(run).Some? <==> run.status == RunStatus.Failed
    ensures Pause(run).Some? ==>
              OnlyMoved(run, Pause(run).value, RunStatus.Paused, run.reason) && Pause(run).value.steps == run.steps
    ensures Resume(run).Some? ==>
              && OnlyMoved(run, Resume(run).value, if run.startedAt.None? then RunStatus.Queued else RunStatus.Running,
                           run.reason)
              && Resume(run).value.steps == run.steps
    ensures Cancel(run).Some? ==>
              && OnlyMoved(run, Cancel(run).value, RunStatus.Compensating, ByCancel)
              && Cancel(run).value.steps == run.steps
    ensures Retry(run).Some? ==>
              OnlyMoved(run, Retry(run).value, RunStatus.Queued, NoReason) && |Retry(run).value.steps| == |run.steps|
    ensures forall i :: Retry(run).Some? && 0 <= i < |run.steps| ==>
              var s, t := run.steps[i], Retry(run).value.steps[i];
              if s.status in {StepStatus.Failed, StepStatus.Skipped} then
                t == StepRow(s.key, StepStatus.Pending, s.attempt, None, s.lockedAt, s.output)
              else t == s
  {}

  /** A fresh run is queued at its first step with its input as context, and every step row is untouched. */
  lemma FreshSays(env: Env, tenant: string, pipeline: string, key: string, input: map<string, Json>, now: Time)
    ensures var r := FreshRun(env, tenant, pipeline, key, input, now);
            && r.tenant == tenant && r.pipeline == pipeline && r.idempotencyKey == key
            && r.status == RunStatus.Queued && r.reason == NoReason && r.index == 0
            && r.context == input && r.queuedAt == now && r.startedAt == None && r.finishedAt == None
            && |r.steps| == |env.registry(pipeline)|
            && forall i :: 0 <= i < |r.steps| ==>
                 r.steps[i] == StepRow(env.registry(pipeline)[i].key, StepStatus.Pending, 0, None, None, "")
  {}

  /** The actions a history is made of: a tick leaves a terminal run alone and is an advance of any other, a
      reclaim is one sweep of the run, and a refused control action changes nothing. */
  lemma ActionsSay(env: Env, run: RunRow, now: Time, body: BodyResult, undo: UndoResult)
    ensures Apply(env, run, Tick(now, body, undo)) ==
            if run.status in {RunStatus.Success, RunStatus.Failed, RunStatus.Cancelled} then
              Effect(run, NotAnAdvance, [])
            else Advance(env, run, now, body, undo)
    ensures Apply(env, run, ReclaimAt(now)) == Effect(Reclaim(env, run, now), NotAnAdvance, [])
    ensures Apply(env, run, PauseRun) ==
            Effect(if Pause(run).Some? then Pause(run).value else run, NotAnAdvance, [])
    ensures Apply(env, run, ResumeRun) ==
            Effect(if Resume(run).Some? then Resume(run).value else run, NotAnAdvance, [])
    ensures Apply(env, run, CancelRun) ==
            Effect(if Cancel(run).Some? then Cancel(run).value else run, NotAnAdvance, [])
    ensures Apply(env, run, RetryRun) ==
            if Retry(run).Some? then Effect(Retry(run).value, NotAnAdvance, [Retried])
            else Effect(run, NotAnAdvance, [])
  {}

  /* ---- what a row's output is, over whole histories ---- */

  /** Action k of this history ran the body of step i, and the body returned this output. */
  ghost predicate ReturnedAt(env: Env, start: History, actions: seq<Action>, k: nat, i: nat, output: Json) {
    && k < |actions| && actions[k].Tick? && actions[k].body.Returns? && actions[k].body.output == output
    && var before := After(env, start, actions[..k]).run;
       before.index == i && Active(before.status) && Due(before, actions[k].now)
  }

  /** One action leaves the output of a row alone, unless it is the call whose body returned it. */
  lemma OutputMoves(env: Env, run: RunRow, a: Action, i: nat)
    requires Coherent(env, run) && i < |run.steps|
    ensures var r := Apply(env, run, a).run;
            && |r.steps| == |run.steps|
            && (|| (r.steps[i].output == run.steps[i].output && (i < r.index <==> i < run.index))
                || (&& a.Tick? && a.body.Returns? && r.steps[i].output == a.body.output
                    && i == run.index && Active(run.status) && Due(run, a.now)))
  {
    match a
    case ReclaimAt(now) => ReclaimFirstIs(env, run, |run.steps|, now);
    case Tick(now, body, undo) =>
      if Active(run.status) && !run.status.Compensating? && Due(run, now) {
        DueOutput(env, run, now, body, undo, i);
      }
    case _ =>
  }

  lemma DueOutput(env: Env, run: RunRow, now: Time, body: BodyResult, undo: UndoResult, i: nat)
    requires Due(run, now) && i < |run.steps|
    ensures var r := Advance(env, run, now, body, undo).run;
            && |r.steps| == |run.steps|
            && (|| (r.steps[i].output == run.steps[i].output && r.index == run.index)
                || (body.Returns? && r.index == run.index + 1 &&
                    r.steps[i].output == if i == run.index then body.output else run.steps[i].output))
  {}

  /** Over every history, retries, crashes and cancels included: once the index has passed a step its output
      is the one its body returned in some call of that history that found the step due; until then the
      output is as it was, and the step does not say SUCCESS. */
  lemma {:induction false} OutputsReturned(env: Env, start: History, actions: seq<Action>, i: nat)
    requires Coherent(env, start.run) && start.run.index <= i < |start.run.steps|
    ensures var r := After(env, start, actions).run;
            && |r.steps| == |start.run.steps|
            && (if r.index <= i then r.steps[i].output == start.run.steps[i].output && !r.steps[i].status.Success?
                else exists k: nat :: ReturnedAt(env, start, actions, k, i, r.steps[i].output))
    decreases |actions|
  {
    AlwaysCoherent(env, start, actions);
    NotYetSuccess(env, After(env, start, actions).run);
    if actions != [] {
      var last := |actions| - 1;
      var most := actions[..last];
      OutputsReturned(env, start, most, i);
      AlwaysCoherent(env, start, most);
      OutputMoves(env, After(env, start, most).run, actions[last], i);
      if i < After(env, start, most).run.index {
        ReturnedKept(env, start, actions, most, i, After(env, start, most).run.steps[i].output);
      } else if i < After(env, start, actions).run.index {
        assert ReturnedAt(env, start, actions, last, i, actions[last].body.output);
      }
    }
  }

  lemma NotYetSuccess(env: Env, run: RunRow)
    requires Coherent(env, run)
    ensures forall i :: run.index <= i < |run.steps| ==> !run.steps[i].status.Success?
  {}

  lemma ReturnedKept(env: Env, start: History, actions: seq<Action>, most: seq<Action>, i: nat, output: Json)
    requires actions != [] && most == actions[..|actions| - 1]
    requires exists k: nat :: ReturnedAt(env, start, most, k, i, output)
    ensures exists k: nat :: ReturnedAt(env, start, actions, k, i, output)
  {
    var k: nat :| ReturnedAt(env, start, most, k, i, output);
    assert most[..k] == actions[..k];
    assert ReturnedAt(env, start, actions, k, i, output);
  }
}
