/** Every effective tick uses up something that only an operator retry gives back. */
module Termination {
  import opened Wrappers
  import opened Workflow
  import opened EngineSpec
  import opened Coherence
  import opened Ledger

  /** The advance did something: not one of the three outcomes that only look. */
  predicate Effective(o: Outcome) {
    !o.PausedOutcome? && !o.NotDue? && !o.AlreadyClaimed? && !o.NotAnAdvance?
  }

  function MaxAttempts(d: Option<StepDef>): int {
    if d.None? then 0 else d.value.maxAttempts
  }

  /** What a row can still cost: its remaining claims, and one for undoing it. */
  function Weight(d: Option<StepDef>, s: StepRow): nat {
    match s.status
    case Pending => Max(MaxAttempts(d) - s.attempt, 1) + 1
    case Running => Max(MaxAttempts(d) - s.attempt, 0) + 1
    case Success => 1
    case _ => 0
  }

  function Work(env: Env, run: RunRow, k: nat): nat
    requires k <= |run.steps|
  {
    if k == 0 then 0 else Work(env, run, k - 1) + Weight(DefOf(env, run, k - 1), run.steps[k - 1])
  }

  function Measure(env: Env, run: RunRow): nat {
    Work(env, run, |run.steps|) + if Terminal(run.status) then 0 else 1
  }

  ghost predicate NotHeavier(env: Env, a: RunRow, b: RunRow) {
    |a.steps| == |b.steps| && forall i :: 0 <= i < |a.steps| ==>
      Weight(DefOf(env, b, i), b.steps[i]) <= Weight(DefOf(env, a, i), a.steps[i])
  }

  /** Row by row lighter means lighter in sum, and strictly so if one row is. */
  lemma {:induction false} WorkMoves(env: Env, a: RunRow, b: RunRow, k: nat)
    requires NotHeavier(env, a, b) && k <= |a.steps|
    ensures Work(env, b, k) <= Work(env, a, k)
    ensures forall i :: 0 <= i < k && Weight(DefOf(env, b, i), b.steps[i]) < Weight(DefOf(env, a, i), a.steps[i]) ==>
              Work(env, b, k) < Work(env, a, k)
  {
    if k > 0 {
      WorkMoves(env, a, b, k - 1);
    }
  }

  lemma RunStepLighter(env: Env, run: RunRow, now: Time, body: BodyResult)
    requires Coherent(env, run) && HeadIs(run, StepStatus.Pending)
    requires run.status.Queued? || run.status.Running?
    ensures Measure(env, RunStep(env, run, now, body).run) < Measure(env, run)
  {
    var r := RunStep(env, run, now, body).run;
    var i := run.index;
    assert DefOf(env, r, i) == DefOf(env, run, i);
    assert Weight(DefOf(env, r, i), r.steps[i]) < Weight(DefOf(env, run, i), run.steps[i]);
    WorkMoves(env, run, r, |run.steps|);
  }

  lemma CompensationLighter(env: Env, run: RunRow, now: Time, undo: UndoResult)
    requires Coherent(env, run) && run.status.Compensating?
    ensures Measure(env, AdvanceCompensation(env, run, now, undo).run) < Measure(env, run)
  {
    var r := AdvanceCompensation(env, run, now, undo).run;
    match TopSuccess(run.steps)
    case None => WorkMoves(env, run, r, |run.steps|);
    case Some(top) =>
      UndoLighter(env, run, top, now, undo);
      WorkMoves(env, run, r, |run.steps|);
  }

  lemma UndoLighter(env: Env, run: RunRow, top: nat, now: Time, undo: UndoResult)
    requires top < |run.steps| && run.steps[top].status.Success?
    ensures var r := UndoStep(env, run, top, now, undo).run;
            && NotHeavier(env, run, r) && r.status == run.status
            && Weight(DefOf(env, r, top), r.steps[top]) < Weight(DefOf(env, run, top), run.steps[top])
  {
    var r := UndoStep(env, run, top, now, undo).run;
    forall i | 0 <= i < |run.steps|
      ensures DefOf(env, r, i) == DefOf(env, run, i)
      ensures Weight(DefOf(env, r, i), r.steps[i]) <= Weight(DefOf(env, run, i), run.steps[i])
    {}
  }

  /** An advance with an effective outcome strictly decreases the measure, any other changes nothing. */
  lemma AdvanceLighter(env: Env, run: RunRow, now: Time, body: BodyResult, undo: UndoResult)
    requires Coherent(env, run) && !Terminal(run.status)
    ensures var e := Advance(env, run, now, body, undo);
            if Effective(e.outcome) then Measure(env, e.run) < Measure(env, run) else e.run == run && e.log == []
  {
    if run.status.Compensating? {
      CompensationLighter(env, run, now, undo);
    } else if Active(run.status) && run.index == |run.steps| {
      var r := Advance(env, run, now, body, undo).run;
      WorkMoves(env, run, r, |run.steps|);
    } else if Active(run.status) && HeadIs(run, StepStatus.Pending) {
      RunStepLighter(env, run, now, body);
    }
  }

  lemma ReclaimNotHeavier(env: Env, run: RunRow, now: Time)
    requires Coherent(env, run)
    ensures Measure(env, Reclaim(env, run, now)) <= Measure(env, run)
  {
    ReclaimFirstIs(env, run, |run.steps|, now);
    var r := Reclaim(env, run, now);
    forall i | 0 <= i < |run.steps|
      ensures DefOf(env, r, i) == DefOf(env, run, i)
      ensures Weight(DefOf(env, r, i), r.steps[i]) <= Weight(DefOf(env, run, i), run.steps[i])
    {}
    if Terminal(run.status) && !Terminal(r.status) {
      assert Weight(DefOf(env, r, run.index), r.steps[run.index]) <
             Weight(DefOf(env, run, run.index), run.steps[run.index]);
    }
    WorkMoves(env, run, r, |run.steps|);
  }

  lemma ApplyLighter(env: Env, run: RunRow, a: Action)
    requires Coherent(env, run) && !a.RetryRun?
    ensures var e := Apply(env, run, a);
            Measure(env, e.run) + (if Effective(e.outcome) then 1 else 0) <= Measure(env, run)
  {
    match a
    case Tick(now, body, undo) =>
      if !Terminal(run.status) { AdvanceLighter(env, run, now, body, undo); }
    case ReclaimAt(now) => ReclaimNotHeavier(env, run, now);
    case PauseRun | ResumeRun | CancelRun => WorkMoves(env, run, Apply(env, run, a).run, |run.steps|);
    case RetryRun =>
  }

  function EffectiveTicks(env: Env, start: History, actions: seq<Action>): nat
    decreases |actions|
  {
    if actions == [] then 0
    else
      var h := After(env, start, actions[..|actions| - 1]);
      EffectiveTicks(env, start, actions[..|actions| - 1]) +
      if Effective(Apply(env, h.run, actions[|actions| - 1]).outcome) then 1 else 0
  }

  lemma {:induction false} EffectiveTicksBounded(env: Env, start: History, actions: seq<Action>)
    requires Coherent(env, start.run) && forall k :: 0 <= k < |actions| ==> !actions[k].RetryRun?
    ensures EffectiveTicks(env, start, actions) +
        Measure(env, After(env, start, actions).run) <= Measure(env, start.run)
    decreases |actions|
  {
    if actions != [] {
      EffectiveTicksBounded(env, start, actions[..|actions| - 1]);
      AlwaysCoherent(env, start, actions[..|actions| - 1]);
      ApplyLighter(env, After(env, start, actions[..|actions| - 1]).run, actions[|actions| - 1]);
    }
  }

  /** The attempt limits of the first k steps of a definition, added up. */
  function SumOfLimits(defs: seq<StepDef>, k: nat): nat
    requires k <= |defs|
  {
    if k == 0 then 0 else SumOfLimits(defs, k - 1) + Limit(FindStep(defs, defs[k - 1].key))
  }

  lemma {:induction false} FreshWork(env: Env, run: RunRow, k: nat)
    requires run.steps == FreshSteps(env.registry(run.pipeline)) && k <= |run.steps|
    ensures Work(env, run, k) == SumOfLimits(env.registry(run.pipeline), k) + k
  {
    if k > 0 {
      FreshWork(env, run, k - 1);
    }
  }

  /** A retry-free run of n steps sees at most (sum of attempt limits) + n + 1 effective ticks over its
      whole life, crashes, reclaims, pauses and cancels included; once that many are used it is over. */
  lemma RunTerminates(env: Env, tenant: string, pipeline: string, key: string, input: map<string, Json>, now: Time,
                      actions: seq<Action>)
    requires forall k :: 0 <= k < |actions| ==> !actions[k].RetryRun?
    ensures var start := History(FreshRun(env, tenant, pipeline, key, input, now), []);
            var n := |env.registry(pipeline)|;
            var bound := SumOfLimits(env.registry(pipeline), n) + n + 1;
            && EffectiveTicks(env, start, actions) <= bound
            && (EffectiveTicks(env, start, actions) == bound ==> Terminal(After(env, start, actions).run.status))
  {
    var start := History(FreshRun(env, tenant, pipeline, key, input, now), []);
    EffectiveTicksBounded(env, start, actions);
    FreshWork(env, start.run, |start.run.steps|);
  }
}
