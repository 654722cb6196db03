/** The two grains agree: one worker left alone performs exactly one advance_one. */
module Solo {
  import opened Wrappers
  import opened Workflow
  import opened EngineSpec
  import opened Workers

  lemma Then(env: Env, s: State, ops: seq<Op>, op: Op)
    ensures Interleave(env, s, ops + [op]) == Next(env, Interleave(env, s, ops), op)
  {
    assert (ops + [op])[..|ops + [op]| - 1] == ops;
  }

  function Repeat(op: Op, n: nat): seq<Op> {
    if n == 0 then [] else Repeat(op, n - 1) + [op]
  }

  /** Load the run, five operations up to and including the body, and three to save what came of it. */
  function SoloOps(w: nat, now: Time, later: Time, body: BodyResult, undo: UndoResult): seq<Op> {
    [Load(w)] + Repeat(Go(w, now, body, undo), 5) + Repeat(Go(w, later, body, undo), 3)
  }

  function Five(env: Env, s: State, op: Op): State {
    Next(env, Next(env, Next(env, Next(env, Next(env, s, op), op), op), op), op)
  }

  function Three(env: Env, s: State, op: Op): State {
    Next(env, Next(env, Next(env, s, op), op), op)
  }

  lemma {:induction false} InSequence(env: Env, s: State, xs: seq<Op>, ys: seq<Op>)
    ensures Interleave(env, s, xs + ys) == Interleave(env, Interleave(env, s, xs), ys)
    decreases |ys|
  {
    if ys == [] {
      assert xs + ys == xs;
    } else {
      assert xs + ys == (xs + ys[..|ys| - 1]) + [ys[|ys| - 1]];
      InSequence(env, s, xs, ys[..|ys| - 1]);
      Then(env, s, xs + ys[..|ys| - 1], ys[|ys| - 1]);
    }
  }

  lemma RepeatOnce(env: Env, s: State, op: Op, n: nat)
    requires n > 0
    ensures Interleave(env, s, Repeat(op, n)) == Next(env, Interleave(env, s, Repeat(op, n - 1)), op)
  {
    Then(env, s, Repeat(op, n - 1), op);
  }

  lemma Twice(env: Env, s: State, op: Op)
    ensures Interleave(env, s, Repeat(op, 2)) == Next(env, Next(env, s, op), op)
  {
    assert Repeat(op, 0) == [];
    RepeatOnce(env, s, op, 1);
    RepeatOnce(env, s, op, 2);
  }

  lemma ThreeTimes(env: Env, s: State, op: Op)
    ensures Interleave(env, s, Repeat(op, 3)) == Three(env, s, op)
  {
    Twice(env, s, op);
    RepeatOnce(env, s, op, 3);
  }

  lemma FourTimes(env: Env, s: State, op: Op)
    ensures Interleave(env, s, Repeat(op, 4)) == Next(env, Three(env, s, op), op)
  {
    ThreeTimes(env, s, op);
    RepeatOnce(env, s, op, 4);
  }

  lemma FiveTimes(env: Env, s: State, op: Op)
    ensures Interleave(env, s, Repeat(op, 5)) == Five(env, s, op)
  {
    FourTimes(env, s, op);
    RepeatOnce(env, s, op, 5);
  }

  lemma SoloUnrolls(env: Env, s: State, w: nat, now: Time, later: Time, body: BodyResult, undo: UndoResult)
    ensures Interleave(env, s, SoloOps(w, now, later, body, undo)) ==
            Three(env, Five(env, Next(env, s, Load(w)), Go(w, now, body, undo)), Go(w, later, body, undo))
  {
    var a, b := Go(w, now, body, undo), Go(w, later, body, undo);
    assert [] + [Load(w)] == [Load(w)];
    Then(env, s, [], Load(w));
    var s0 := Next(env, s, Load(w));
    InSequence(env, s, [Load(w)], Repeat(a, 5));
    InSequence(env, s, [Load(w)] + Repeat(a, 5), Repeat(b, 3));
    FiveTimes(env, s0, a);
    ThreeTimes(env, Five(env, s0, a), b);
  }

  predicate AloneIn(s: State, w: nat) {
    s.pcs == map[] && Active(s.run.status)
  }

  lemma Idle(env: Env, s: State, op: Op)
    requires op.Go? && s.pcs == map[]
    ensures Next(env, s, op) == s
  {}

  lemma Loads(env: Env, s: State, w: nat)
    requires AloneIn(s, w)
    ensures Next(env, s, Load(w)) == State(s.run, map[w := Loaded(s.run)], s.log)
  {
    assert s.pcs[w := Loaded(s.run)] == map[w := Loaded(s.run)];
  }

  /** Four operations take a due step from loaded to claimed and marked. */
  lemma ReachesReady(env: Env, s: State, w: nat, now: Time, op: Op)
    requires AloneIn(s, w) && !s.run.status.Compensating? && s.run.index < |s.run.steps|
    requires s.run.steps[s.run.index].status.Pending? && !WaitsForBackoff(s.run.steps[s.run.index], now)
    requires op.Go? && op.w == w && op.now == now
    ensures var claimed := Claim(s.run.steps[s.run.index], StepStatus.Running, now);
            Next(env, Next(env, Next(env, Next(env, Next(env, s, Load(w)), op), op), op), op) ==
            State(BeginStep(s.run, now), map[w := Ready(s.run, claimed)], s.log + [Won(s.run.index)])
  {
    var i := s.run.index;
    var claimed := Claim(s.run.steps[i], StepStatus.Running, now);
    var row := WithStep(s.run, i, claimed);
    Loads(env, s, w);
    var s1 := Next(env, Next(env, s, Load(w)), op);
    assert s1 == State(s.run, map[w := HasRow(s.run)], s.log) by {
      assert map[w := Loaded(s.run)][w := HasRow(s.run)] == map[w := HasRow(s.run)];
    }
    var s2 := Next(env, s1, op);
    assert s2 == State(row, map[w := ClaimWon(s.run)], s.log + [Won(i)]) by {
      assert map[w := HasRow(s.run)][w := ClaimWon(s.run)] == map[w := ClaimWon(s.run)];
    }
    var s3 := Next(env, s2, op);
    assert s3 == State(row, map[w := Refreshed(s.run, claimed)], s.log + [Won(i)]) by {
      assert map[w := ClaimWon(s.run)][w := Refreshed(s.run, claimed)] == map[w := Refreshed(s.run, claimed)];
    }
    assert map[w := Refreshed(s.run, claimed)][w := Ready(s.run, claimed)] == map[w := Ready(s.run, claimed)];
  }

  /** Saving a failure takes one operation, or two when it ends the attempts. */
  lemma SavesFailure(env: Env, s: State, w: nat, snap: RunRow, row: StepRow, limit: int, delay: int, op: Op)
    requires s.pcs == map[w := Failing(snap, row, limit, delay)] && op.Go? && op.w == w
    requires snap.index < |s.run.steps| && s.run.steps[snap.index] == row
    ensures var t := Three(env, s, op);
            t.run == FailStep(s.run, snap.index, limit, delay, op.now) && t.pcs == map[]
  {
    var i := snap.index;
    var s1 := Next(env, s, op);
    if row.attempt < limit {
      assert s1.pcs == map[];
      assert s1.run == FailStep(s.run, i, limit, delay, op.now);
      Idle(env, s1, op);
    } else {
      assert s1.pcs == map[w := FailureSaved];
      assert s1.run == WithStep(s.run, i, row.(status := StepStatus.Failed, lockedAt := None));
      var s2 := Next(env, s1, op);
      assert s2.pcs == map[];
      Idle(env, s2, op);
    }
  }

  lemma SavesSuccess(env: Env, s: State, w: nat, snap: RunRow, row: StepRow, output: Json, op: Op)
    requires s.pcs == map[w := Succeeding(snap, row, output)] && op.Go? && op.w == w
    requires snap.index < |s.run.steps| && s.run.steps[snap.index] == row
    requires snap.index == s.run.index && snap.context == s.run.context
    ensures var t := Three(env, s, op);
            t.run == SucceedStep(s.run, snap.index, output) && t.pcs == map[]
  {
    var i := snap.index;
    var s1 := Next(env, s, op);
    assert s1.pcs == map[w := StepSaved(snap, row, output)];
    assert s1.run == WithStep(s.run, i, row.(status := StepStatus.Success, output := output, lockedAt := None));
    var s2 := Next(env, s1, op);
    assert s2.pcs == map[];
    Idle(env, s2, op);
  }

  /** What a forward call leaves of a claimed step, by what its body did. */
  lemma SoloBody(env: Env, s: State, w: nat, snap: RunRow, a: Op, b: Op)
    requires snap.index < |s.run.steps| && snap.index == s.run.index && snap.context == s.run.context
    requires s.pcs == map[w := Ready(snap, s.run.steps[snap.index])]
    requires a.Go? && a.w == w && b.Go? && b.w == w
    ensures var t := Three(env, Next(env, s, a), b);
            var row := s.run.steps[snap.index];
            t.pcs == map[] &&
            t.run == match DefOf(env, s.run, snap.index)
                     case None => FailStep(s.run, snap.index, row.attempt, 0, b.now)
                     case Some(d) =>
                       match a.body
                       case Dies => s.run
                       case Raises(_) => FailStep(s.run, snap.index, d.maxAttempts, d.backoff(row.attempt), b.now)
                       case Returns(output, _) => SucceedStep(s.run, snap.index, output)
  {
    var i := snap.index;
    var row := s.run.steps[i];
    var s1 := Next(env, s, a);
    assert s1.run == s.run;
    match DefOf(env, s.run, i)
    case None =>
      assert s1.pcs == map[w := Failing(snap, row, row.attempt, 0)];
      SavesFailure(env, s1, w, snap, row, row.attempt, 0, b);
    case Some(d) =>
      match a.body {
        case Dies =>
          assert s1.pcs == map[];
          Idle(env, s1, b);
        case Raises(_) =>
          assert s1.pcs == map[w := Failing(snap, row, d.maxAttempts, d.backoff(row.attempt))];
          SavesFailure(env, s1, w, snap, row, d.maxAttempts, d.backoff(row.attempt), b);
        case Returns(output, _) =>
          assert s1.pcs == map[w := Succeeding(snap, row, output)];
          SavesSuccess(env, s1, w, snap, row, output, b);
      }
  }

  /** The time at which a solo worker saves a failure. */
  function SavedAt(env: Env, run: RunRow, now: Time, body: BodyResult): Time {
    if body.Raises? && !run.status.Compensating? && run.index < |run.steps| && DefOf(env, run, run.index).Some?
    then now + body.took else now
  }

  lemma SoloForward(env: Env, s: State, w: nat, now: Time, body: BodyResult, undo: UndoResult)
    requires AloneIn(s, w) && !s.run.status.Compensating? && s.run.index < |s.run.steps|
    ensures var t := Three(env, Five(env, Next(env, s, Load(w)), Go(w, now, body, undo)),
                           Go(w, SavedAt(env, s.run, now, body), body, undo));
            t.run == Advance(env, s.run, now, body, undo).run && t.pcs == map[]
  {
    var a, b := Go(w, now, body, undo), Go(w, SavedAt(env, s.run, now, body), body, undo);
    var row := s.run.steps[s.run.index];
    if WaitsForBackoff(row, now) || !row.status.Pending? {
      Loads(env, s, w);
      var s1 := Next(env, Next(env, s, Load(w)), a);
      var s2 := Next(env, s1, a);
      assert s2.pcs == map[] && s2.run == s.run;
      Idle(env, s2, a);
      Idle(env, s2, b);
    } else {
      ReachesReady(env, s, w, now, a);
      var claimed := Claim(row, StepStatus.Running, now);
      var ready := State(BeginStep(s.run, now), map[w := Ready(s.run, claimed)], s.log + [Won(s.run.index)]);
      SoloBody(env, ready, w, s.run, a, b);
      assert DefOf(env, ready.run, s.run.index) == DefOf(env, s.run, s.run.index);
    }
  }

  lemma SoloFinish(env: Env, s: State, w: nat, status: RunStatus, op: Op)
    requires s.pcs == map[w := Finishing(status)] && op.Go? && op.w == w && Active(s.run.status)
    ensures var t := Three(env, s, op); t.run == Finish(s.run, status, op.now).run && t.pcs == map[]
  {
    var s1 := Next(env, s, op);
    assert s1.pcs == map[w := Refreshing(status)] && s1.run == Finish(s.run, status, op.now).run;
    var s2 := Next(env, s1, op);
    assert s2.pcs == map[w := Publishing(status)] && s2.run == s1.run;
  }

  lemma SoloUnwind(env: Env, s: State, w: nat, now: Time, body: BodyResult, undo: UndoResult)
    requires AloneIn(s, w) && (s.run.status.Compensating? || s.run.index >= |s.run.steps|)
    ensures var t := Three(env, Five(env, Next(env, s, Load(w)), Go(w, now, body, undo)), Go(w, now, body, undo));
            t.run == Advance(env, s.run, now, body, undo).run && t.pcs == map[]
  {
    var a := Go(w, now, body, undo);
    Loads(env, s, w);
    var s1 := Next(env, Next(env, s, Load(w)), a);
    assert s1.run == s.run;
    if !s.run.status.Compensating? {
      assert s1.pcs == map[w := Finishing(RunStatus.Success)];
      SoloFinish(env, s1, w, RunStatus.Success, a);
      Idle(env, Three(env, s1, a), a);
    } else {
      var top := TopSuccess(s.run.steps);
      var s2 := Next(env, s1, a);
      if top.None? {
        assert s1.pcs == map[w := Skipping(s.run)];
        assert s2.pcs == map[w := Finishing(FinalStatus(s.run.reason))];
        assert s2.run == s.run.(steps := SkipPending(s.run.steps));
        SoloFinish(env, s2, w, FinalStatus(s.run.reason), a);
        Idle(env, Three(env, s2, a), a);
      } else {
        var i := top.value;
        var claimed := Claim(s.run.steps[i], StepStatus.Compensating, now);
        assert s1.pcs == map[w := HasTop(i)];
        assert s2.pcs == map[w := UndoOwned(i)] && s2.run == WithStep(s.run, i, claimed);
        SoloUndo(env, s2, w, i, a);
        Idle(env, Next(env, Next(env, s2, a), a), a);
        assert UndoStep(env, s.run, i, now, undo).run.steps == Next(env, Next(env, s2, a), a).run.steps;
      }
    }
  }

  lemma SoloUndo(env: Env, s: State, w: nat, i: nat, op: Op)
    requires s.pcs == map[w := UndoOwned(i)] && op.Go? && op.w == w && i < |s.run.steps|
    ensures var t := Next(env, Next(env, s, op), op);
            var d := DefOf(env, s.run, i);
            var row := s.run.steps[i];
            t.pcs == map[] &&
            t.run == if d.None? || !d.value.hasUndo || op.undo.UndoReturns? then
                       WithStep(s.run, i, row.(status := StepStatus.Compensated, lockedAt := None))
                     else if op.undo.UndoRaises? then
                       WithStep(s.run, i, row.(status := StepStatus.CompensationFailed, lockedAt := None))
                     else s.run
  {
    var s1 := Next(env, s, op);
    assert s1.run == s.run;
    if op.w in s1.pcs {
      assert s1.pcs == map[w := s1.pcs[w]];
      assert Next(env, s1, op).pcs == map[];
    } else {
      assert s1.pcs == map[];
      Idle(env, s1, op);
    }
  }

  /** A worker alone with an active run does to it what one call of advance_one does. */
  lemma SoloIsAdvance(env: Env, s: State, w: nat, now: Time, body: BodyResult, undo: UndoResult)
    requires AloneIn(s, w)
    ensures var t := Interleave(env, s, SoloOps(w, now, SavedAt(env, s.run, now, body), body, undo));
            t.run == Advance(env, s.run, now, body, undo).run && t.pcs == map[]
  {
    var later := SavedAt(env, s.run, now, body);
    SoloUnrolls(env, s, w, now, later, body, undo);
    if s.run.status.Compensating? || s.run.index >= |s.run.steps| {
      SoloUnwind(env, s, w, now, body, undo);
    } else {
      SoloForward(env, s, w, now, body, undo);
    }
  }

  lemma InThree(env: Env, s: State, a: Op, b: Op)
    ensures Interleave(env, s, [a, b, b]) == Next(env, Next(env, Next(env, s, a), b), b)
  {
    assert [] + [a] == [a] && [a] + [b] == [a, b] && [a, b] + [b] == [a, b, b];
    Then(env, s, [], a);
    Then(env, s, [a], b);
    Then(env, s, [a, b], b);
  }

  /** A reclaim left alone with one row does to the run what the sweep does for that row. */
  lemma SoloReclaims(env: Env, s: State, w: nat, i: nat, now: Time, body: BodyResult, undo: UndoResult)
    requires s.pcs == map[] && i < |s.run.steps|
    ensures var op := Go(w, now, body, undo);
            var t := Interleave(env, s, [Scan(w, i, now), op, op]);
            t.run == ReclaimStep(env, s.run, i, now) && t.pcs == map[]
  {
    var op := Go(w, now, body, undo);
    InThree(env, s, Scan(w, i, now), op);
    var s1 := Next(env, s, Scan(w, i, now));
    if !Stale(env, s.run, i, now) {
      Idle(env, s, op);
    } else {
      var s2 := Next(env, s1, op);
      if s2.pcs == map[] {
        Idle(env, s2, op);
      } else {
        assert s2.pcs == map[w := Exhausting];
      }
    }
  }

  /** An operator retry left alone does what the one-step retry does. */
  lemma SoloRetries(env: Env, s: State, w: nat, now: Time, body: BodyResult, undo: UndoResult)
    requires s.pcs == map[]
    ensures var op := Go(w, now, body, undo);
            var t := Interleave(env, s, [AskRetry(w), op, op]);
            t.run == OrElse(Retry(s.run), s.run) && t.pcs == map[]
  {
    var op := Go(w, now, body, undo);
    InThree(env, s, AskRetry(w), op);
    var s1 := Next(env, s, AskRetry(w));
    if s.run.status.Failed? {
      assert s1.pcs == map[w := WantsRetry];
      assert Next(env, s1, op).pcs == map[w := Rearmed];
    } else {
      Idle(env, s, op);
    }
  }

  /** Pause, resume and cancel are single operations; a resume is what it is called for as long as the run
      did not start in between. */
  lemma SoloControls(env: Env, s: State)
    ensures Next(env, s, PauseOp) == s.(run := OrElse(Pause(s.run), s.run))
    ensures Next(env, s, ResumeOp(s.run.startedAt.Some?)) == s.(run := OrElse(Resume(s.run), s.run))
    ensures Next(env, s, CancelOp) == s.(run := OrElse(Cancel(s.run), s.run))
  {}
}
