/** The saga promise of the engine: forward steps in order, then a reverse unwind, then a terminal
    status that agrees with what happened. It is kept by every retry-free history whose cancels
    find no step marked RUNNING, and for a cancel that does find one it is lost. */
module Saga {
  import opened Workflow
  import opened EngineSpec
  import opened Coherence

  ghost predicate AllAre(run: RunRow, lo: nat, hi: nat, s: StepStatus) {
    forall i :: lo <= i < hi && i < |run.steps| ==> run.steps[i].status == s
  }

  ghost predicate AllUndone(run: RunRow, hi: nat) {
    forall i :: 0 <= i < hi && i < |run.steps| ==> Undone(run.steps[i].status)
  }

  /** The SUCCESS steps below the index form a prefix: the unwind goes from the top down. */
  ghost predicate UnwoundFromTop(run: RunRow) {
    forall i, j :: 0 <= i < j < run.index && j < |run.steps| && run.steps[j].status.Success? ==>
        run.steps[i].status.Success?
  }

  ghost predicate InOrder(env: Env, run: RunRow) {
    && Coherent(env, run)
    && UnwoundFromTop(run)
    && match run.status
       case Queued => AllAre(run, 0, run.index, StepStatus.Success)
       case Running => AllAre(run, 0, run.index, StepStatus.Success)
       case Paused => AllAre(run, 0, run.index, StepStatus.Success)
       case Compensating =>
         (run.reason.ByCancel? && run.index < |run.steps| ==> HeadIs(run, StepStatus.Pending)) &&
         AllAre(run, run.index + 1, |run.steps|, StepStatus.Pending)
       case Success => AllAre(run, 0, |run.steps|, StepStatus.Success)
       case Failed => AllUndone(run, run.index) && AllAre(run, run.index + 1, |run.steps|, StepStatus.Skipped)
       case Cancelled => AllUndone(run, run.index) && AllAre(run, run.index, |run.steps|, StepStatus.Skipped)
  }

  /** The promise as the outside sees it, with no word about how it is kept. */
  ghost predicate Settled(run: RunRow) {
    && (Forward(run.status) ==>
          run.index <= |run.steps| &&
          (forall i :: 0 <= i < |run.steps| ==> (run.steps[i].status.Success? <==> i < run.index)) &&
          (run.index < |run.steps| ==> HeadIs(run, StepStatus.Pending) || HeadIs(run, StepStatus.Running)) &&
          (forall i :: run.index < i < |run.steps| ==> run.steps[i].status.Pending? && run.steps[i].attempt == 0))
    && (run.status.Success? ==> AllAre(run, 0, |run.steps|, StepStatus.Success))
    && (run.status.Failed? || run.status.Cancelled? ==>
          NoneIs(run, StepStatus.Success) && NoneIs(run, StepStatus.Pending) && NoneIs(run, StepStatus.Running) &&
          run.status == FinalStatus(run.reason) && !run.reason.NoReason? &&
          (run.status.Failed? <==> exists i :: 0 <= i < |run.steps| && run.steps[i].status.Failed?))
  }

  lemma InOrderIsSettled(env: Env, run: RunRow)
    requires InOrder(env, run)
    ensures Settled(run)
  {
    if run.status.Failed? {
      assert run.steps[run.index].status.Failed?;
    }
  }

  /** No step row says RUNNING. With engine calls as single steps this is all a cancel has to check; under
      interleaving a worker may also be about to claim (module Cancelling). */
  ghost predicate Idle(run: RunRow) {
    NoneIs(run, StepStatus.Running)
  }

  /** No retry, and every cancel that takes effect finds the run idle. */
  ghost predicate Orderly(env: Env, run: RunRow, a: Action) {
    !a.RetryRun? && (a.CancelRun? && Forward(run.status) ==> Idle(run))
  }

  lemma RunStepInOrder(env: Env, run: RunRow, now: Time, body: BodyResult)
    requires InOrder(env, run) && Active(run.status) && !run.status.Compensating?
    requires HeadIs(run, StepStatus.Pending)
    ensures InOrder(env, RunStep(env, run, now, body).run)
  {
    RunStepKeeps(env, run, now, body);
  }

  lemma CompensationInOrder(env: Env, run: RunRow, now: Time, undo: UndoResult)
    requires InOrder(env, run) && run.status.Compensating?
    ensures InOrder(env, AdvanceCompensation(env, run, now, undo).run)
  {
    CompensationKeeps(env, run, now, undo);
    var r := AdvanceCompensation(env, run, now, undo).run;
    match TopSuccess(run.steps)
    case None =>
    case Some(top) =>
      assert top < run.index;
      forall i, j | 0 <= i < j < r.index && j < |r.steps| && r.steps[j].status.Success?
        ensures r.steps[i].status.Success?
      {
        assert run.steps[j].status.Success? && j < top;
      }
  }

  lemma TickInOrder(env: Env, run: RunRow, now: Time, body: BodyResult, undo: UndoResult)
    requires InOrder(env, run) && Active(run.status)
    ensures InOrder(env, Advance(env, run, now, body, undo).run)
  {
    if run.status.Compensating? {
      CompensationInOrder(env, run, now, undo);
    } else if HeadIs(run, StepStatus.Pending) {
      RunStepInOrder(env, run, now, body);
    }
  }

  lemma ReclaimInOrder(env: Env, run: RunRow, now: Time)
    requires InOrder(env, run)
    ensures InOrder(env, Reclaim(env, run, now))
  {
    ReclaimKeeps(env, run, now);
    ReclaimFirstIs(env, run, |run.steps|, now);
  }

  lemma ApplyInOrder(env: Env, run: RunRow, a: Action)
    requires InOrder(env, run) && Orderly(env, run, a)
    ensures InOrder(env, Apply(env, run, a).run)
  {
    ApplyKeeps(env, run, a);
    match a
    case Tick(now, body, undo) =>
      if Active(run.status) { TickInOrder(env, run, now, body, undo); }
    case ReclaimAt(now) => ReclaimInOrder(env, run, now);
    case _ =>
  }

  ghost predicate OrderlyHistory(env: Env, start: History, actions: seq<Action>) {
    forall k :: 0 <= k < |actions| ==> Orderly(env, After(env, start, actions[..k]).run, actions[k])
  }

  lemma OrderlyPrefix(env: Env, start: History, actions: seq<Action>)
    requires actions != [] && OrderlyHistory(env, start, actions)
    ensures OrderlyHistory(env, start, actions[..|actions| - 1])
    ensures Orderly(env, After(env, start, actions[..|actions| - 1]).run, actions[|actions| - 1])
  {
    var most := actions[..|actions| - 1];
    forall k | 0 <= k < |most| ensures Orderly(env, After(env, start, most[..k]).run, most[k]) {
      assert most[..k] == actions[..k];
    }
  }

  lemma {:induction false} AlwaysInOrder(env: Env, start: History, actions: seq<Action>)
    requires InOrder(env, start.run) && OrderlyHistory(env, start, actions)
    ensures InOrder(env, After(env, start, actions).run)
    decreases |actions|
  {
    if actions != [] {
      OrderlyPrefix(env, start, actions);
      AlwaysInOrder(env, start, actions[..|actions| - 1]);
      ApplyInOrder(env, After(env, start, actions[..|actions| - 1]).run, actions[|actions| - 1]);
    }
  }

  /** Every state of a retry-free history from a fresh run keeps the saga promise, as long as
      cancels land while no step is marked RUNNING. */
  lemma SagaKept(env: Env, tenant: string, pipeline: string, key: string, input: map<string, Json>, now: Time,
                 actions: seq<Action>)
    requires OrderlyHistory(env, History(FreshRun(env, tenant, pipeline, key, input, now), []), actions)
    ensures Settled(After(env, History(FreshRun(env, tenant, pipeline, key, input, now), []), actions).run)
  {
    var start := History(FreshRun(env, tenant, pipeline, key, input, now), []);
    FreshIsCoherent(env, tenant, pipeline, key, input, now);
    AlwaysInOrder(env, start, actions);
    InOrderIsSettled(env, After(env, start, actions).run);
  }

  /* ---- the cancel that finds a step marked RUNNING ---- */

  lemma {:induction false} AfterAppend(env: Env, start: History, xs: seq<Action>, ys: seq<Action>)
    ensures After(env, start, xs + ys) == After(env, After(env, start, xs), ys)
    decreases |ys|
  {
    if ys == [] {
      assert xs + ys == xs;
    } else {
      assert (xs + ys)[..|xs + ys| - 1] == xs + ys[..|ys| - 1];
      AfterAppend(env, start, xs, ys[..|ys| - 1]);
    }
  }

  lemma AfterOne(env: Env, h: History, a: Action)
    ensures After(env, h, [a]) == History(Apply(env, h.run, a).run, h.log + Apply(env, h.run, a).log)
  {
    assert [a][..|[a]| - 1] == [];
    assert After(env, h, []) == h;
  }

  ghost predicate RetryFree(actions: seq<Action>) {
    forall k :: 0 <= k < |actions| ==> !actions[k].RetryRun?
  }

  /** A cancelled run with a RUNNING row unwinds around that row and ends with it still RUNNING. */
  lemma {:induction false} UnwindsAround(env: Env, h: History, i: nat) returns (actions: seq<Action>)
    requires h.run.status.Compensating? && h.run.reason.ByCancel?
    requires i < |h.run.steps| && h.run.steps[i].status.Running?
    requires Coherent(env, h.run)
    ensures RetryFree(actions)
    ensures var last := After(env, h, actions).run;
            last.status.Cancelled? && |last.steps| == |h.run.steps| && last.steps[i].status.Running?
    decreases |set j | 0 <= j < |h.run.steps| && h.run.steps[j].status.Success?|
  {
    var tick := Tick(0, Dies, UndoReturns);
    var h1 := After(env, h, [tick]);
    AfterOne(env, h, tick);
    ApplyKeeps(env, h.run, tick);
    var top := TopSuccess(h.run.steps);
    if top.None? {
      actions := [tick];
    } else {
      var before := set j | 0 <= j < |h.run.steps| && h.run.steps[j].status.Success?;
      var after := set j | 0 <= j < |h1.run.steps| && h1.run.steps[j].status.Success?;
      assert after == before - {top.value};
      assert |after| < |before|;
      var rest := UnwindsAround(env, h1, i);
      actions := [tick] + rest;
      AfterAppend(env, h, [tick], rest);
    }
  }

  /** Exactly when a cancel that lands between engine calls is safe: in a run that is in order, everything
      that can follow the cancel keeps the promise if and only if no step is marked RUNNING. */
  lemma CancelSafeIffIdle(env: Env, run: RunRow, log: seq<Obs>)
    requires InOrder(env, run) && Forward(run.status)
    ensures Idle(run) <==>
            forall actions :: RetryFree(actions) ==>
              Settled(After(env, History(Cancel(run).value, log), actions).run)
  {
    var start := History(Cancel(run).value, log);
    ApplyKeeps(env, run, CancelRun);
    if Idle(run) {
      forall actions | RetryFree(actions)
        ensures Settled(After(env, start, actions).run)
      {
        ApplyInOrder(env, run, CancelRun);
        CancelledStays(env, start, actions);
        InOrderIsSettled(env, After(env, start, actions).run);
      }
    } else {
      var i :| 0 <= i < |run.steps| && run.steps[i].status.Running?;
      var actions := UnwindsAround(env, start, i);
      assert !Settled(After(env, start, actions).run);
    }
  }

  /** Past a cancel no forward status comes back, so no later cancel takes effect. */
  lemma {:induction false} CancelledStays(env: Env, start: History, actions: seq<Action>)
    requires InOrder(env, start.run) && !Forward(start.run.status) && RetryFree(actions)
    ensures InOrder(env, After(env, start, actions).run) && !Forward(After(env, start, actions).run.status)
    decreases |actions|
  {
    if actions != [] {
      CancelledStays(env, start, actions[..|actions| - 1]);
      var run := After(env, start, actions[..|actions| - 1]).run;
      var a := actions[|actions| - 1];
      ApplyInOrder(env, run, a);
      if a.ReclaimAt? { ReclaimFirstIs(env, run, |run.steps|, a.now); }
    }
  }
}
