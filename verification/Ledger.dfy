/** Accounting over whole histories, operator retries and badly timed cancels included: what a step
    recorded, what was undone, how often its body ran, and what its attempt counter says. */
module Ledger {
  import opened Wrappers
  import opened Workflow
  import opened EngineSpec
  import opened Coherence

  function Count(log: seq<Obs>, o: Obs): nat {
    if log == [] then 0
    else Count(log[..|log| - 1], o) + (if log[|log| - 1] == o then 1 else 0)
  }

  lemma {:induction false} CountAppend(a: seq<Obs>, b: seq<Obs>, o: Obs)
    ensures Count(a + b, o) == Count(a, o) + Count(b, o)
    decreases |b|
  {
    if b == [] {
      assert a + b == a;
    } else {
      assert (a + b)[..|a + b| - 1] == a + b[..|b| - 1];
      CountAppend(a, b[..|b| - 1], o);
    }
  }

  /** How often the body of step i was started. */
  function Executions(log: seq<Obs>, i: nat): nat {
    if log == [] then 0
    else Executions(log[..|log| - 1], i) +
         (if log[|log| - 1].Executed? && log[|log| - 1].step == i then 1 else 0)
  }

  lemma {:induction false} ExecutionsAppend(a: seq<Obs>, b: seq<Obs>, i: nat)
    ensures Executions(a + b, i) == Executions(a, i) + Executions(b, i)
    decreases |b|
  {
    if b == [] {
      assert a + b == a;
    } else {
      assert (a + b)[..|a + b| - 1] == a + b[..|b| - 1];
      ExecutionsAppend(a, b[..|b| - 1], i);
    }
  }

  /** Executions an untouched step may use up before it fails for good. */
  function Limit(d: Option<StepDef>): nat {
    if d.None? then 1 else Max(1, d.value.maxAttempts)
  }

  ghost predicate Balanced(h: History, i: nat)
    requires i < |h.run.steps|
  {
    && Count(h.log, Recorded(i)) == Count(h.log, UndoClaimed(i)) + (if h.run.steps[i].status.Success? then 1 else 0)
    && Count(h.log, Recorded(i)) <= 1
    && (i >= h.run.index ==> Count(h.log, Recorded(i)) == 0)
    && h.run.steps[i].attempt == Count(h.log, Claimed(i)) + Count(h.log, UndoClaimed(i))
  }

  ghost predicate AttemptsDistinct(h: History, i: nat) {
    && Executions(h.log, i) <= Count(h.log, Claimed(i))
    && forall a: nat :: Count(h.log, Executed(i, a)) <= 1 &&
                        (Count(h.log, Executed(i, a)) == 1 ==> 1 <= a <= Count(h.log, Claimed(i)))
  }

  ghost predicate WithinBudget(env: Env, h: History, i: nat)
    requires i < |h.run.steps|
  {
    && Count(h.log, Claimed(i)) <= Limit(DefOf(env, h.run, i)) + Count(h.log, Retried)
    && (h.run.steps[i].status.Pending? || h.run.steps[i].status.Skipped? ==>
          Count(h.log, Claimed(i)) < Limit(DefOf(env, h.run, i)) + Count(h.log, Retried))
  }

  ghost predicate Accounted(env: Env, h: History) {
    && Coherent(env, h.run)
    && forall i :: 0 <= i < |h.run.steps| ==>
         Balanced(h, i) && AttemptsDistinct(h, i) && WithinBudget(env, h, i)
  }

  lemma FreshIsAccounted(env: Env, tenant: string, pipeline: string, key: string, input: map<string, Json>, now: Time)
    ensures Accounted(env, History(FreshRun(env, tenant, pipeline, key, input, now), []))
  {}

  /** The log of one forward call: a claim, then perhaps an execution, then perhaps a success. */
  ghost predicate ForwardLog(log: seq<Obs>, head: nat, attempt: nat) {
    || log == [Claimed(head)]
    || log == [Claimed(head), Executed(head, attempt)]
    || log == [Claimed(head), Executed(head, attempt), Recorded(head)]
  }

  lemma CountForward(log: seq<Obs>, head: nat, attempt: nat, o: Obs)
    requires ForwardLog(log, head, attempt)
    ensures Count(log, o) == if o == Claimed(head) then 1
                             else if o == Executed(head, attempt) && |log| > 1 then 1
                             else if o == Recorded(head) && |log| > 2 then 1 else 0
    ensures o.Executed? ==> Executions(log, o.step) == if o.step == head && |log| > 1 then 1 else 0
  {
    if |log| == 3 {
      assert log[..2] == [Claimed(head), Executed(head, attempt)];
      assert log[..2][..1] == [Claimed(head)];
    } else if |log| == 2 {
      assert log[..1] == [Claimed(head)];
    }
    assert [Claimed(head)][..0] == [];
  }

  lemma CountShort(log: seq<Obs>, o: Obs)
    requires |log| <= 1
    ensures Count(log, o) == if |log| == 1 && log[0] == o then 1 else 0
    ensures o.Executed? && |log| == 1 && !log[0].Executed? ==> Executions(log, o.step) == 0
    ensures o.Executed? && log == [] ==> Executions(log, o.step) == 0
  {
    if |log| == 1 { assert log[..0] == []; }
  }

  /** How the counts of one step move: the numbers the account of that step is made of. */
  datatype Tallies = Tallies(claimed: nat, recorded: nat, undone: nat, executions: nat, retried: nat)

  function Of(log: seq<Obs>, i: nat): Tallies {
    Tallies(Count(log, Claimed(i)), Count(log, Recorded(i)), Count(log, UndoClaimed(i)), Executions(log, i),
            Count(log, Retried))
  }

  lemma OfAppend(a: seq<Obs>, b: seq<Obs>, i: nat)
    ensures Of(a + b, i) == Tallies(Of(a, i).claimed + Of(b, i).claimed, Of(a, i).recorded + Of(b, i).recorded,
                                    Of(a, i).undone + Of(b, i).undone, Of(a, i).executions + Of(b, i).executions,
                                    Of(a, i).retried + Of(b, i).retried)
  {
    CountAppend(a, b, Claimed(i));
    CountAppend(a, b, Recorded(i));
    CountAppend(a, b, UndoClaimed(i));
    CountAppend(a, b, Retried);
    ExecutionsAppend(a, b, i);
  }

  lemma OfForward(log: seq<Obs>, head: nat, attempt: nat, i: nat)
    requires ForwardLog(log, head, attempt)
    ensures Of(log, i) == if i == head then Tallies(1, if |log| > 2 then 1 else 0, 0, if |log| > 1 then 1 else 0, 0)
                          else Tallies(0, 0, 0, 0, 0)
  {
    CountForward(log, head, attempt, Claimed(i));
    CountForward(log, head, attempt, Recorded(i));
    CountForward(log, head, attempt, UndoClaimed(i));
    CountForward(log, head, attempt, Retried);
    CountForward(log, head, attempt, Executed(i, attempt));
  }

  lemma OfShort(log: seq<Obs>, i: nat)
    requires |log| <= 1 && (|log| == 1 ==> log[0].UndoClaimed? || log[0].Published? || log[0].Retried?)
    ensures Of(log, i) == Tallies(0, 0, if |log| == 1 && log[0] == UndoClaimed(i) then 1 else 0, 0,
                                  if |log| == 1 && log[0].Retried? then 1 else 0)
  {
    CountShort(log, Claimed(i));
    CountShort(log, Recorded(i));
    CountShort(log, UndoClaimed(i));
    CountShort(log, Retried);
    CountShort(log, Executed(i, 0));
  }

  /** What one call does to the row of step i, next to what it logged about step i. */
  ghost predicate Moves(env: Env, run: RunRow, e: Effect, i: nat)
    requires i < |run.steps|
  {
    var d := Of(e.log, i);
    && |e.run.steps| == |run.steps|
    && DefOf(env, e.run, i) == DefOf(env, run, i)
    && run.index <= e.run.index
    && e.run.steps[i].attempt == run.steps[i].attempt + d.claimed + d.undone
    && d.executions <= d.claimed <= 1
    && d.recorded + (if run.steps[i].status.Success? then 1 else 0) ==
        d.undone + (if e.run.steps[i].status.Success? then 1 else 0)
    && (d.recorded > 0 ==> d.recorded == 1 && i == run.index < e.run.index)
    && (d.undone > 0 ==> d.undone == 1 && run.steps[i].status.Success?)
    && (d.claimed > 0 ==> run.steps[i].status.Pending? && i == run.index)
    && (e.run.steps[i].status.Pending? || e.run.steps[i].status.Skipped? ==>
          || (d.claimed == 0 && (run.steps[i].status.Pending? || run.steps[i].status.Skipped?))
          || (e.run.steps[i].attempt < Limit(DefOf(env, run, i)) && i >= run.index && d.undone == 0)
          || (d.retried > 0 && d.claimed == 0))
  }

  lemma RunStepMoves(env: Env, run: RunRow, now: Time, body: BodyResult, i: nat)
    requires Coherent(env, run) && Active(run.status) && !run.status.Compensating?
    requires HeadIs(run, StepStatus.Pending) && i < |run.steps|
    ensures Moves(env, run, RunStep(env, run, now, body), i)
  {
    var e := RunStep(env, run, now, body);
    OfForward(e.log, run.index, run.steps[run.index].attempt + 1, i);
  }

  lemma CompensationMoves(env: Env, run: RunRow, now: Time, undo: UndoResult, i: nat)
    requires Coherent(env, run) && run.status.Compensating? && i < |run.steps|
    ensures Moves(env, run, AdvanceCompensation(env, run, now, undo), i)
  {
    OfShort(AdvanceCompensation(env, run, now, undo).log, i);
  }

  lemma ReclaimMoves(env: Env, run: RunRow, now: Time, i: nat)
    requires Coherent(env, run) && i < |run.steps|
    ensures Moves(env, run, Apply(env, run, ReclaimAt(now)), i)
  {
    OfShort([], i);
    ReclaimFirstIs(env, run, |run.steps|, now);
  }

  lemma ApplyMoves(env: Env, run: RunRow, a: Action, i: nat)
    requires Coherent(env, run) && i < |run.steps|
    ensures Moves(env, run, Apply(env, run, a), i)
  {
    match a
    case ReclaimAt(now) => ReclaimMoves(env, run, now, i);
    case Tick(now, body, undo) =>
      if run.status.Compensating? {
        CompensationMoves(env, run, now, undo, i);
      } else if Active(run.status) && HeadIs(run, StepStatus.Pending) && !WaitsForBackoff(run.steps[run.index], now) {
        RunStepMoves(env, run, now, body, i);
      } else {
        OfShort(Apply(env, run, a).log, i);
      }
    case _ => OfShort(Apply(env, run, a).log, i);
  }

  /** An execution is logged under the attempt number its own claim produced. */
  lemma ApplyExecutes(env: Env, run: RunRow, a: Action, i: nat, n: nat)
    requires Coherent(env, run) && i < |run.steps|
    ensures var log := Apply(env, run, a).log;
            Count(log, Executed(i, n)) <= 1 &&
            (Count(log, Executed(i, n)) == 1 ==>
               n == run.steps[i].attempt + 1 && i >= run.index && Count(log, Claimed(i)) == 1)
  {
    var log := Apply(env, run, a).log;
    if a.Tick? && Active(run.status) && !run.status.Compensating? && HeadIs(run, StepStatus.Pending) &&
        !WaitsForBackoff(run.steps[run.index], a.now) {
      CountForward(log, run.index, run.steps[run.index].attempt + 1, Executed(i, n));
      CountForward(log, run.index, run.steps[run.index].attempt + 1, Claimed(i));
    } else {
      CountShort(log, Executed(i, n));
    }
  }

  lemma StepAccounted(env: Env, h: History, a: Action, i: nat)
    requires Accounted(env, h) && i < |h.run.steps|
    ensures var e := Apply(env, h.run, a);
            var h' := History(e.run, h.log + e.log);
            |e.run.steps| == |h.run.steps| && Balanced(h', i) && AttemptsDistinct(h', i) && WithinBudget(env, h', i)
  {
    var e := Apply(env, h.run, a);
    var h' := History(e.run, h.log + e.log);
    assert Balanced(h, i) && AttemptsDistinct(h, i) && WithinBudget(env, h, i);
    ApplyMoves(env, h.run, a, i);
    OfAppend(h.log, e.log, i);
    forall n: nat
      ensures Count(h'.log, Executed(i, n)) <= 1
      ensures Count(h'.log, Executed(i, n)) == 1 ==> 1 <= n <= Count(h'.log, Claimed(i))
    {
      CountAppend(h.log, e.log, Executed(i, n));
      ApplyExecutes(env, h.run, a, i, n);
    }
  }

  lemma ApplyAccounted(env: Env, h: History, a: Action)
    requires Accounted(env, h)
    ensures var e := Apply(env, h.run, a); Accounted(env, History(e.run, h.log + e.log))
  {
    ApplyKeeps(env, h.run, a);
    var e := Apply(env, h.run, a);
    var h' := History(e.run, h.log + e.log);
    forall i | 0 <= i < |e.run.steps|
      ensures Balanced(h', i) && AttemptsDistinct(h', i) && WithinBudget(env, h', i)
    {
      SameRows(env, h.run, a);
      StepAccounted(env, h, a, i);
    }
  }

  lemma {:induction false} AlwaysAccounted(env: Env, start: History, actions: seq<Action>)
    requires Accounted(env, start)
    ensures Accounted(env, After(env, start, actions))
    decreases |actions|
  {
    if actions != [] {
      AlwaysAccounted(env, start, actions[..|actions| - 1]);
      ApplyAccounted(env, After(env, start, actions[..|actions| - 1]), actions[|actions| - 1]);
    }
  }

  /** Over every history: a step records success at most once, successes minus compensation claims
      is 1 exactly while the step says SUCCESS and 0 otherwise, and the attempt counter is the
      number of claims won on the step. */
  lemma SuccessLedger(env: Env, tenant: string, pipeline: string, key: string, input: map<string, Json>, now: Time,
                      actions: seq<Action>, i: nat)
    requires i < |env.registry(pipeline)|
    ensures var h := After(env, History(FreshRun(env, tenant, pipeline, key, input, now), []), actions);
            i < |h.run.steps| &&
            Count(h.log, Recorded(i)) <= 1 &&
            Count(h.log, Recorded(i)) - Count(h.log, UndoClaimed(i)) ==
                (if h.run.steps[i].status.Success? then 1 else 0) &&
            h.run.steps[i].attempt == Count(h.log, Claimed(i)) + Count(h.log, UndoClaimed(i))
  {
    var start := History(FreshRun(env, tenant, pipeline, key, input, now), []);
    FreshIsAccounted(env, tenant, pipeline, key, input, now);
    AlwaysAccounted(env, start, actions);
    SameShape(env, start, actions);
    assert Balanced(After(env, start, actions), i);
  }

  /** With r retries so far the body of a step ran at most max(1, max_attempts) + r times, and never
      twice under the same attempt number. */
  lemma ExecutionBudget(env: Env, tenant: string, pipeline: string, key: string, input: map<string, Json>, now: Time,
                        actions: seq<Action>, i: nat, a: nat)
    requires i < |env.registry(pipeline)|
    ensures var h := After(env, History(FreshRun(env, tenant, pipeline, key, input, now), []), actions);
            i < |h.run.steps| &&
            Executions(h.log, i) <= Limit(DefOf(env, h.run, i)) + Count(h.log, Retried) &&
            Count(h.log, Executed(i, a)) <= 1
  {
    var start := History(FreshRun(env, tenant, pipeline, key, input, now), []);
    FreshIsAccounted(env, tenant, pipeline, key, input, now);
    AlwaysAccounted(env, start, actions);
    SameShape(env, start, actions);
    assert AttemptsDistinct(After(env, start, actions), i) && WithinBudget(env, After(env, start, actions), i);
  }

  ghost predicate RowsNamed(run: RunRow, r: RunRow) {
    |r.steps| == |run.steps| && r.pipeline == run.pipeline &&
    forall i :: 0 <= i < |r.steps| ==> r.steps[i].key == run.steps[i].key
  }

  lemma RunStepRows(env: Env, run: RunRow, now: Time, body: BodyResult)
    requires run.index < |run.steps|
    ensures RowsNamed(run, RunStep(env, run, now, body).run)
  {}

  lemma UnwindRows(env: Env, run: RunRow, now: Time, undo: UndoResult)
    ensures RowsNamed(run, AdvanceCompensation(env, run, now, undo).run)
  {}

  lemma ReclaimRows(env: Env, run: RunRow, now: Time)
    requires Coherent(env, run)
    ensures RowsNamed(run, Reclaim(env, run, now))
  {
    ReclaimFirstIs(env, run, |run.steps|, now);
  }

  lemma ControlRows(env: Env, run: RunRow, a: Action)
    requires !a.Tick? && !a.ReclaimAt?
    ensures RowsNamed(run, Apply(env, run, a).run)
  {}

  lemma SameRows(env: Env, run: RunRow, a: Action)
    requires Coherent(env, run)
    ensures RowsNamed(run, Apply(env, run, a).run)
  {
    match a
    case Tick(now, body, undo) =>
      if run.status.Compensating? {
        UnwindRows(env, run, now, undo);
      } else if run.index < |run.steps| {
        RunStepRows(env, run, now, body);
      }
    case ReclaimAt(now) => ReclaimRows(env, run, now);
    case _ => ControlRows(env, run, a);
  }

  /** No action adds, drops or renames a step row, or moves a run to another pipeline. */
  lemma {:induction false} SameShape(env: Env, start: History, actions: seq<Action>)
    requires Coherent(env, start.run)
    ensures var r := After(env, start, actions).run;
            |r.steps| == |start.run.steps| && r.pipeline == start.run.pipeline &&
            forall i :: 0 <= i < |r.steps| ==> r.steps[i].key == start.run.steps[i].key
    decreases |actions|
  {
    if actions != [] {
      SameShape(env, start, actions[..|actions| - 1]);
      AlwaysCoherent(env, start, actions[..|actions| - 1]);
      SameRows(env, After(env, start, actions[..|actions| - 1]).run, actions[|actions| - 1]);
    }
  }

  /** A body never starts before its next_attempt_at, and a failure that is retried sets that to the time of
      the failure plus the step's own backoff. */
  lemma BackoffSet(env: Env, run: RunRow, now: Time, body: BodyResult, undo: UndoResult, i: nat, a: nat)
    requires Coherent(env, run)
    ensures var e := Apply(env, run, Tick(now, body, undo));
            Executed(i, a) in e.log ==>
              i == run.index < |run.steps| && run.steps[i].status.Pending? && a == run.steps[i].attempt + 1 &&
              (run.steps[i].nextAttemptAt.Some? ==> run.steps[i].nextAttemptAt.value <= now) &&
              (body.Raises? && e.run.steps[i].status.Pending? ==>
                 e.run.steps[i].nextAttemptAt == Some(now + body.took + DefOf(env, run, i).value.backoff(a)))
  {
    if Active(run.status) && !run.status.Compensating? && HeadIs(run, StepStatus.Pending) {
      var e := RunStep(env, run, now, body);
    }
  }

  /** Short of an operator retry, only an execution of a step moves its next_attempt_at. */
  lemma WaitKept(env: Env, run: RunRow, a: Action, i: nat)
    requires Coherent(env, run) && i < |run.steps| && !a.RetryRun? && Executions(Apply(env, run, a).log, i) == 0
    ensures var r := Apply(env, run, a).run;
            i < |r.steps| && r.steps[i].nextAttemptAt == run.steps[i].nextAttemptAt
  {
    match a
    case ReclaimAt(now) => ReclaimFirstIs(env, run, |run.steps|, now);
    case Tick(now, body, undo) =>
      if !Terminal(run.status) {
        AdvanceWaitKept(env, run, now, body, undo, i);
      }
    case _ =>
  }

  lemma AdvanceWaitKept(env: Env, run: RunRow, now: Time, body: BodyResult, undo: UndoResult, i: nat)
    requires Coherent(env, run) && i < |run.steps| && Executions(Advance(env, run, now, body, undo).log, i) == 0
    ensures var r := Advance(env, run, now, body, undo).run;
            i < |r.steps| && r.steps[i].nextAttemptAt == run.steps[i].nextAttemptAt
  {
    if Active(run.status) && !run.status.Compensating? && HeadIs(run, StepStatus.Pending) &&
       !WaitsForBackoff(run.steps[run.index], now) {
      RunStepWaitKept(env, run, now, body, i);
    }
  }

  lemma RunStepWaitKept(env: Env, run: RunRow, now: Time, body: BodyResult, i: nat)
    requires run.index < |run.steps| && i < |run.steps| && Executions(RunStep(env, run, now, body).log, i) == 0
    ensures RunStep(env, run, now, body).run.steps[i].nextAttemptAt == run.steps[i].nextAttemptAt
  {
    OfForward(RunStep(env, run, now, body).log, run.index, run.steps[run.index].attempt + 1, i);
  }

  lemma {:induction false} AlwaysWaits(env: Env, start: History, actions: seq<Action>, i: nat)
    requires Coherent(env, start.run) && i < |start.run.steps|
    requires forall k :: 0 <= k < |actions| ==> !actions[k].RetryRun?
    requires Executions(After(env, start, actions).log, i) == Executions(start.log, i)
    ensures var r := After(env, start, actions).run;
            i < |r.steps| && r.steps[i].nextAttemptAt == start.run.steps[i].nextAttemptAt
    decreases |actions|
  {
    if actions != [] {
      var most := actions[..|actions| - 1];
      var h := After(env, start, most);
      var e := Apply(env, h.run, actions[|actions| - 1]);
      ExecutionsAppend(h.log, e.log, i);
      ExecutionsGrow(env, start, most, i);
      AlwaysWaits(env, start, most, i);
      AlwaysCoherent(env, start, most);
      WaitKept(env, h.run, actions[|actions| - 1], i);
    }
  }

  lemma {:induction false} ExecutionsGrow(env: Env, start: History, actions: seq<Action>, i: nat)
    ensures Executions(After(env, start, actions).log, i) >= Executions(start.log, i)
    decreases |actions|
  {
    if actions != [] {
      var h := After(env, start, actions[..|actions| - 1]);
      ExecutionsGrow(env, start, actions[..|actions| - 1], i);
      ExecutionsAppend(h.log, Apply(env, h.run, actions[|actions| - 1]).log, i);
    }
  }

  /** Attempt a of step i ran in this tick, failed, and will be retried. */
  ghost predicate FailsAndWaits(env: Env, run: RunRow, now: Time, took: nat, undo: UndoResult, i: nat, a: nat) {
    var e := Apply(env, run, Tick(now, Raises(took), undo));
    Executed(i, a) in e.log && i < |e.run.steps| && e.run.steps[i].status.Pending?
  }

  /** A retried failure starts again only after the failure plus the step's own backoff: whatever ticks,
      reclaims, pauses, resumes and cancels come in between, the next tick that starts the step comes no
      earlier. */
  lemma BackoffRespected(env: Env, h: History, now: Time, took: nat, undo: UndoResult, i: nat, a: nat,
                         actions: seq<Action>, later: Time, body: BodyResult, undo2: UndoResult, b: nat)
    requires Coherent(env, h.run) && FailsAndWaits(env, h.run, now, took, undo, i, a)
    requires forall k :: 0 <= k < |actions| ==> !actions[k].RetryRun?
    ensures var e := Apply(env, h.run, Tick(now, Raises(took), undo));
            var failed := History(e.run, h.log + e.log);
            var waited := After(env, failed, actions);
            && i < |h.run.steps| && DefOf(env, h.run, i).Some?
            && (Executions(waited.log, i) == Executions(failed.log, i) &&
                Executed(i, b) in Apply(env, waited.run, Tick(later, body, undo2)).log ==>
                  later >= now + took + DefOf(env, h.run, i).value.backoff(a))
  {
    var e := Apply(env, h.run, Tick(now, Raises(took), undo));
    var failed := History(e.run, h.log + e.log);
    var waited := After(env, failed, actions);
    BackoffSet(env, h.run, now, Raises(took), undo, i, a);
    RanIsDefined(env, h.run, now, Raises(took), undo, i, a);
    ApplyKeeps(env, h.run, Tick(now, Raises(took), undo));
    if Executions(waited.log, i) == Executions(failed.log, i) {
      AlwaysWaits(env, failed, actions, i);
      AlwaysCoherent(env, failed, actions);
      BackoffSet(env, waited.run, later, body, undo2, i, b);
    }
  }

  lemma RanIsDefined(env: Env, run: RunRow, now: Time, body: BodyResult, undo: UndoResult, i: nat, a: nat)
    requires Coherent(env, run) && Executed(i, a) in Apply(env, run, Tick(now, body, undo)).log
    ensures i < |run.steps| && DefOf(env, run, i).Some?
  {}

  /** One call on a step without automatic retries left runs it and does not re-arm it. */
  lemma LastExecution(env: Env, run: RunRow, now: Time, body: BodyResult)
    requires Coherent(env, run) && run.status.Queued? && HeadIs(run, StepStatus.Pending)
    requires Exhausted(DefOf(env, run, run.index), run.steps[run.index].attempt)
    ensures var e := RunStep(env, run, now, body);
            && |e.run.steps| == |run.steps|
            && (DefOf(env, run, run.index).Some? ==> Executed(run.index, run.steps[run.index].attempt + 1) in e.log)
            && !e.run.steps[run.index].status.Pending?
            && Exhausted(DefOf(env, e.run, run.index), e.run.steps[run.index].attempt)
  {}

  lemma ReclaimExhausted(env: Env, run: RunRow, i: nat, now: Time)
    requires Coherent(env, run) && i < |run.steps| && !run.steps[i].status.Pending?
    requires Exhausted(DefOf(env, run, i), run.steps[i].attempt)
    ensures i < |Reclaim(env, run, now).steps| && !Reclaim(env, run, now).steps[i].status.Pending?
  {
    ReclaimFirstIs(env, run, |run.steps|, now);
  }

  lemma RetryRearms(env: Env, run: RunRow)
    requires Coherent(env, run) && run.status.Failed?
    ensures var again := Retry(run).value;
            && again.status.Queued? && again.index == run.index && HeadIs(again, StepStatus.Pending)
            && again.steps[run.index].attempt == run.steps[run.index].attempt
            && again.steps[run.index].nextAttemptAt.None?
            && DefOf(env, again, run.index) == DefOf(env, run, run.index)
            && Exhausted(DefOf(env, run, run.index), run.steps[run.index].attempt)
            && forall i :: 0 <= i < run.index ==> again.steps[i] == run.steps[i]
  {}

  /** The one execution happens: a retried run re-arms the step it failed on and touches nothing before
      it, and the next call runs that step. */
  lemma RetryRunsIt(env: Env, run: RunRow, now: Time, body: BodyResult, undo: UndoResult, later: Time)
    requires Coherent(env, run) && run.status.Failed?
    ensures var again := Retry(run).value;
            var e := Advance(env, again, now, body, undo);
            var swept := Reclaim(env, e.run, later);
            && again.index == run.index && HeadIs(again, StepStatus.Pending)
            && (forall i :: 0 <= i < run.index ==> again.steps[i] == run.steps[i])
            && (DefOf(env, run, run.index).Some? ==> Executed(run.index, run.steps[run.index].attempt + 1) in e.log)
            && run.index < |swept.steps| && !swept.steps[run.index].status.Pending?
  {
    var again := Retry(run).value;
    ControlKeeps(env, run, RetryRun);
    RetryRearms(env, run);
    assert Advance(env, again, now, body, undo) == RunStep(env, again, now, body);
    LastExecution(env, again, now, body);
    RunStepKeeps(env, again, now, body);
    ReclaimExhausted(env, RunStep(env, again, now, body).run, run.index, later);
  }

  /** Step i may run once more from `base` executions, and only while it is still waiting to. */
  ghost predicate OneLeft(env: Env, h: History, i: nat, base: nat)
    requires i < |h.run.steps|
  {
    && base <= Executions(h.log, i) <= base + 1
    && (h.run.steps[i].status.Pending? || h.run.steps[i].status.Skipped? ==> Executions(h.log, i) == base)
    && h.run.steps[i].attempt >= Limit(DefOf(env, h.run, i))
  }

  lemma OneLeftKept(env: Env, h: History, a: Action, i: nat, base: nat)
    requires Coherent(env, h.run) && i < |h.run.steps| && OneLeft(env, h, i, base) && !a.RetryRun?
    ensures var e := Apply(env, h.run, a);
            i < |e.run.steps| && OneLeft(env, History(e.run, h.log + e.log), i, base)
  {
    var e := Apply(env, h.run, a);
    ApplyMoves(env, h.run, a, i);
    OfAppend(h.log, e.log, i);
    OnlyRetriesRetry(env, h.run, a, i);
  }

  lemma OnlyRetriesRetry(env: Env, run: RunRow, a: Action, i: nat)
    requires !a.RetryRun?
    ensures Of(Apply(env, run, a).log, i).retried == 0
  {
    var log := Apply(env, run, a).log;
    assert |log| <= 3 && forall k :: 0 <= k < |log| ==> log[k] != Retried;
    NoneCounted(log, Retried);
  }

  lemma {:induction false} NoneCounted(log: seq<Obs>, o: Obs)
    requires forall k :: 0 <= k < |log| ==> log[k] != o
    ensures Count(log, o) == 0
  {
    if log != [] {
      NoneCounted(log[..|log| - 1], o);
    }
  }

  lemma {:induction false} AlwaysOneLeft(env: Env, start: History, actions: seq<Action>, i: nat, base: nat)
    requires Coherent(env, start.run) && i < |start.run.steps| && OneLeft(env, start, i, base)
    requires forall k :: 0 <= k < |actions| ==> !actions[k].RetryRun?
    ensures var h := After(env, start, actions); i < |h.run.steps| && OneLeft(env, h, i, base)
    decreases |actions|
  {
    if actions != [] {
      var most := actions[..|actions| - 1];
      AlwaysOneLeft(env, start, most, i, base);
      AlwaysCoherent(env, start, most);
      OneLeftKept(env, After(env, start, most), actions[|actions| - 1], i, base);
    }
  }

  /** A retry grants the step the run failed on exactly one more execution: over everything that follows
      up to the next retry its body is started at most once more, and not at all while the step still
      waits for it. */
  lemma RetryGrantsOne(env: Env, run: RunRow, log: seq<Obs>, actions: seq<Action>)
    requires Coherent(env, run) && run.status.Failed?
    requires forall k :: 0 <= k < |actions| ==> !actions[k].RetryRun?
    ensures var i := run.index;
            var h := After(env, History(Retry(run).value, log + [Retried]), actions);
            && i < |h.run.steps|
            && Executions(log, i) <= Executions(h.log, i) <= Executions(log, i) + 1
            && (h.run.steps[i].status.Pending? || h.run.steps[i].status.Skipped? ==>
                  Executions(h.log, i) == Executions(log, i))
  {
    var start := History(Retry(run).value, log + [Retried]);
    ControlKeeps(env, run, RetryRun);
    RetryRearms(env, run);
    assert (log + [Retried])[..|log|] == log;
    assert run.steps[run.index].attempt >= 1;
    AlwaysOneLeft(env, start, actions, run.index, Executions(log, run.index));
  }
}
