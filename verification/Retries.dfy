/** What an operator retry does to the saga promise, and what every run keeps of its context. */
module Retries {
  import opened Workflow
  import opened EngineSpec
  import opened Coherence
  import opened Saga

  /** A retry keeps the saga promise exactly when the run failed on its first step: the index is not
      rewound and compensated steps are not run again. */
  lemma RetrySafeIffFirst(env: Env, run: RunRow, log: seq<Obs>)
    requires Coherent(env, run) && run.status.Failed?
    ensures run.index == 0 <==>
            forall actions :: OrderlyHistory(env, History(Retry(run).value, log), actions) ==>
              Settled(After(env, History(Retry(run).value, log), actions).run)
  {
    var start := History(Retry(run).value, log);
    ControlKeeps(env, run, RetryRun);
    if run.index == 0 {
      assert InOrder(env, start.run);
      forall actions | OrderlyHistory(env, start, actions)
        ensures Settled(After(env, start, actions).run)
      {
        AlwaysInOrder(env, start, actions);
        InOrderIsSettled(env, After(env, start, actions).run);
      }
    } else {
      assert After(env, start, []) == start;
      assert !run.steps[0].status.Success?;
      assert OrderlyHistory(env, start, []);
      assert !Settled(After(env, start, []).run);
    }
  }

  /** From a queued or running run whose remaining steps are all defined, some history of successful
      ticks finishes it, and no tick touches a step below the index. */
  lemma {:induction false} CanFinish(env: Env, h: History) returns (actions: seq<Action>)
    requires Coherent(env, h.run) && (h.run.status.Queued? || h.run.status.Running?)
    requires forall i :: h.run.index <= i < |h.run.steps| ==>
               h.run.steps[i].status.Pending? && h.run.steps[i].nextAttemptAt.None? && DefOf(env, h.run, i).Some?
    ensures var last := After(env, h, actions).run;
            last.status.Success? && |last.steps| == |h.run.steps| &&
            forall i :: 0 <= i < h.run.index ==> last.steps[i] == h.run.steps[i]
    decreases |h.run.steps| - h.run.index
  {
    var tick := Tick(0, Returns("", 0), UndoReturns);
    AfterOne(env, h, tick);
    ApplyKeeps(env, h.run, tick);
    if h.run.index == |h.run.steps| {
      actions := [tick];
    } else {
      var rest := CanFinish(env, After(env, h, [tick]));
      actions := [tick] + rest;
      AfterAppend(env, h, [tick], rest);
    }
  }

  /** A run retried past its first step can end SUCCESS over steps that stay compensated. */
  lemma RetriedCanEndOverUndone(env: Env, run: RunRow, log: seq<Obs>) returns (actions: seq<Action>)
    requires Coherent(env, run) && run.status.Failed? && run.index > 0
    requires forall i :: run.index <= i < |run.steps| ==> DefOf(env, run, i).Some?
    ensures var last := After(env, History(Retry(run).value, log), actions).run;
            last.status.Success? && |last.steps| == |run.steps| && AllUndone(last, run.index)
  {
    ControlKeeps(env, run, RetryRun);
    var again := Retry(run).value;
    forall i | again.index <= i < |again.steps|
      ensures again.steps[i].status.Pending? && again.steps[i].nextAttemptAt.None? && DefOf(env, again, i).Some?
    {
      assert DefOf(env, run, i).Some?;
      assert i > run.index ==> Unclaimed(run.steps[i]);
    }
    actions := CanFinish(env, History(again, log));
    forall i | 0 <= i < run.index ensures Undone(again.steps[i].status) {
      assert !run.steps[i].status.Success?;
    }
  }

  /* ---- the context ---- */

  /** The input data overlaid, in step order, with the outputs of the given rows. */
  function Overlay(input: map<string, Json>, steps: seq<StepRow>): map<string, Json> {
    if steps == [] then input
    else Overlay(input, steps[..|steps| - 1])[steps[|steps| - 1].key := steps[|steps| - 1].output]
  }

  lemma {:induction false} OverlayReads(input: map<string, Json>, a: seq<StepRow>, b: seq<StepRow>)
    requires |a| == |b| && forall i :: 0 <= i < |a| ==> a[i].key == b[i].key && a[i].output == b[i].output
    ensures Overlay(input, a) == Overlay(input, b)
  {
    if a != [] {
      OverlayReads(input, a[..|a| - 1], b[..|b| - 1]);
    }
  }

  ghost predicate ContextFits(run: RunRow, input: map<string, Json>)
    requires run.index <= |run.steps|
  {
    run.context == Overlay(input, run.steps[..run.index])
  }

  lemma RunStepOutputs(env: Env, run: RunRow, now: Time, body: BodyResult)
    requires run.index < |run.steps|
    ensures OutputsMove(run, RunStep(env, run, now, body).run)
  {}

  ghost predicate OutputsMove(run: RunRow, r: RunRow) {
    && |r.steps| == |run.steps| >= run.index
    && (forall i :: 0 <= i < run.index ==>
        r.steps[i].key == run.steps[i].key && r.steps[i].output == run.steps[i].output)
    && (|| (r.index == run.index && r.context == run.context)
        || (r.index == run.index + 1 <= |r.steps| &&
            r.context == run.context[r.steps[run.index].key := r.steps[run.index].output]))
  }

  lemma ApplyOutputs(env: Env, run: RunRow, a: Action)
    requires Coherent(env, run)
    ensures OutputsMove(run, Apply(env, run, a).run)
  {
    match a
    case ReclaimAt(now) => ReclaimFirstIs(env, run, |run.steps|, now);
    case Tick(now, body, undo) =>
      if run.status.Compensating? {
        UnwindOutputs(env, run, now, undo);
      } else if run.index < |run.steps| {
        RunStepOutputs(env, run, now, body);
      }
    case _ =>
  }

  lemma UnwindOutputs(env: Env, run: RunRow, now: Time, undo: UndoResult)
    requires run.index <= |run.steps|
    ensures OutputsMove(run, AdvanceCompensation(env, run, now, undo).run)
  {}

  lemma ApplyContext(run: RunRow, r: RunRow, input: map<string, Json>)
    requires run.index <= |run.steps| && ContextFits(run, input) && OutputsMove(run, r)
    ensures r.index <= |r.steps| && ContextFits(r, input)
  {
    OverlayReads(input, run.steps[..run.index], r.steps[..run.index]);
    if r.index == run.index + 1 {
      assert r.steps[..r.index][..run.index] == r.steps[..run.index];
    }
  }

  /** Over every history, retries included, the context is the input data overlaid with the recorded
      outputs of the steps below the index. */
  lemma {:induction false} ContextIsOverlay(env: Env, start: History, actions: seq<Action>, input: map<string, Json>)
    requires Coherent(env, start.run) && start.run.index == 0 && start.run.context == input
    ensures var r := After(env, start, actions).run; r.index <= |r.steps| && ContextFits(r, input)
    decreases |actions|
  {
    if actions == [] {
      assert start.run.steps[..0] == [];
    } else {
      ContextIsOverlay(env, start, actions[..|actions| - 1], input);
      AlwaysCoherent(env, start, actions[..|actions| - 1]);
      var run := After(env, start, actions[..|actions| - 1]).run;
      ApplyOutputs(env, run, actions[|actions| - 1]);
      ApplyContext(run, Apply(env, run, actions[|actions| - 1]).run, input);
    }
  }
}
