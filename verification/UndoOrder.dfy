/** Compensation under interleaving: claims go strictly downwards as long as no step newly becomes
    SUCCESS once compensation has begun, and no recorded success is ever compensated twice. */
module UndoOrder {
  import opened Wrappers
  import opened Workflow
  import opened EngineSpec
  import opened Workers
  import opened Claims

  /** No success is recorded after some worker has started to look for steps to undo. */
  ghost predicate NoLateSuccess(log: seq<Fact>) {
    forall p, q :: 0 <= p < q < |log| && log[p].TopRead? ==> !log[q].SavedSuccess?
  }

  ghost predicate Downwards(log: seq<Fact>) {
    forall p, q :: 0 <= p < q < |log| && log[p].UndoWon? && log[q].UndoWon? ==> log[q].step < log[p].step
  }

  ghost predicate SuccessBelow(s: State, bound: int) {
    forall j :: 0 <= j < |s.run.steps| && s.run.steps[j].status.Success? ==> j < bound
  }

  ghost predicate Ordered(s: State) {
    && Downwards(s.log)
    && (forall p :: 0 <= p < |s.log| && s.log[p].UndoWon? ==> TopRead in s.log && SuccessBelow(s, s.log[p].step))
    && (forall w :: w in s.pcs && s.pcs[w].HasTop? ==> TopRead in s.log && SuccessBelow(s, s.pcs[w].top + 1))
  }

  /** A worker aims at a step only right after seeing that no higher one is SUCCESS, and claims only
      the step it aims at. */
  ghost predicate Aimed(s: State, op: Op, t: State) {
    && (forall w :: w in t.pcs && t.pcs[w].HasTop? ==>
          (w in s.pcs && s.pcs[w] == t.pcs[w]) ||
          (NewFact(s, t) == Some(TopRead) && t.run == s.run && SuccessBelow(s, t.pcs[w].top + 1)))
    && (NewFact(s, t).Some? && NewFact(s, t).value.UndoWon? ==>
          op.Go? && op.w in s.pcs && s.pcs[op.w] == HasTop(NewFact(s, t).value.step))
  }

  lemma LoadAimed(env: Env, s: State, op: Op)
    requires op.Go? && op.w in s.pcs && (s.pcs[op.w].Loaded?)
    ensures Aimed(s, op, Next(env, s, op))
  {}

  lemma UndoAimed(env: Env, s: State, op: Op)
    requires op.Go? && op.w in s.pcs && (s.pcs[op.w].HasTop? || s.pcs[op.w].UndoOwned? || s.pcs[op.w].UndoRan?)
    ensures Aimed(s, op, Next(env, s, op))
  {}

  lemma ForwardAimed(env: Env, s: State, op: Op)
    requires op.Go? && op.w in s.pcs &&
        (s.pcs[op.w].HasRow? || s.pcs[op.w].ClaimWon? || s.pcs[op.w].Refreshed? || s.pcs[op.w].Ready?)
    ensures Aimed(s, op, Next(env, s, op))
  {}

  lemma SaveAimed(env: Env, s: State, op: Op)
    requires op.Go? && op.w in s.pcs &&
        (s.pcs[op.w].Succeeding? || s.pcs[op.w].Failing? || s.pcs[op.w].SawStale? || s.pcs[op.w].StepSaved? ||
        s.pcs[op.w].FailureSaved? || s.pcs[op.w].Exhausting?)
    ensures Aimed(s, op, Next(env, s, op))
  {}

  lemma EndAimed(env: Env, s: State, op: Op)
    requires op.Go? && op.w in s.pcs &&
        (s.pcs[op.w].Skipping? || s.pcs[op.w].Finishing? || s.pcs[op.w].Refreshing? || s.pcs[op.w].Publishing? ||
        s.pcs[op.w].WantsRetry? || s.pcs[op.w].Rearmed?)
    ensures Aimed(s, op, Next(env, s, op))
  {}

  lemma NextAimed(env: Env, s: State, op: Op)
    ensures Aimed(s, op, Next(env, s, op))
  {
    if op.Go? && op.w in s.pcs {
      match s.pcs[op.w]
      case Loaded(_) => LoadAimed(env, s, op);
      case HasTop(_) | UndoOwned(_) | UndoRan(_, _) => UndoAimed(env, s, op);
      case HasRow(_) | ClaimWon(_) | Refreshed(_, _) | Ready(_, _) => ForwardAimed(env, s, op);
      case Succeeding(_, _, _) | Failing(_, _, _, _) | SawStale(_, _, _) | StepSaved(_, _, _) | FailureSaved |
          Exhausting =>
        SaveAimed(env, s, op);
      case _ => EndAimed(env, s, op);
    }
  }

  lemma OrderKept(s: State, op: Op, t: State)
    requires Lawful(s, op, t) && Aimed(s, op, t) && Ordered(s) && NoLateSuccess(t.log)
    ensures Ordered(t)
  {
    var f := NewFact(s, t);
    if f.Some? {
      assert t.log[..|s.log|] == s.log;
      assert forall p :: 0 <= p < |s.log| ==> t.log[p] == s.log[p];
    }
    forall bound: int | SuccessBelow(s, bound) && !(f.Some? && f.value.SavedSuccess?)
      ensures SuccessBelow(t, bound)
    {
      forall j | 0 <= j < |t.run.steps| && t.run.steps[j].status.Success? ensures j < bound {
        assert RowStep(s, op, t, j);
      }
    }
    if f.Some? && f.value.UndoWon? {
      var i := f.value.step;
      assert SuccessBelow(s, i + 1) && RowStep(s, op, t, i);
      assert SuccessBelow(t, i) by {
        forall j | 0 <= j < |t.run.steps| && t.run.steps[j].status.Success? ensures j < i {
          assert RowStep(s, op, t, j);
        }
      }
      assert s.run.steps[i].status.Success?;
    }
    if f.Some? && f.value == TopRead { assert t.log[|s.log|] == TopRead; }
  }

  lemma StepOrdered(env: Env, s: State, op: Op)
    requires Ordered(s) && NoLateSuccess(Next(env, s, op).log)
    ensures Ordered(Next(env, s, op))
  {
    NextLawful(env, s, op);
    NextAimed(env, s, op);
    OrderKept(s, op, Next(env, s, op));
  }

  lemma NoLatePrefix(a: seq<Fact>, b: seq<Fact>)
    requires a <= b && NoLateSuccess(b)
    ensures NoLateSuccess(a)
  {
    assert forall p :: 0 <= p < |a| ==> a[p] == b[p];
  }

  lemma {:induction false} AlwaysOrdered(env: Env, s: State, ops: seq<Op>)
    requires Ordered(s) && NoLateSuccess(Interleave(env, s, ops).log)
    ensures Ordered(Interleave(env, s, ops))
    decreases |ops|
  {
    if ops != [] {
      var before := Interleave(env, s, ops[..|ops| - 1]);
      var after := Next(env, before, ops[|ops| - 1]);
      NextLawful(env, before, ops[|ops| - 1]);
      NoLatePrefix(before.log, after.log);
      AlwaysOrdered(env, s, ops[..|ops| - 1]);
      StepOrdered(env, before, ops[|ops| - 1]);
    }
  }

  /** Any number of workers, dead or alive, any operator actions: if no success was recorded after
      compensation began, the compensation claims of the run went strictly from the top down. */
  lemma UndoGoesDown(env: Env, run: RunRow, ops: seq<Op>)
    requires NoLateSuccess(Interleave(env, Begin(run), ops).log)
    ensures Downwards(Interleave(env, Begin(run), ops).log)
  {
    AlwaysOrdered(env, Begin(run), ops);
  }

  ghost predicate UndoCovered(s: State) {
    forall i :: 0 <= i < |s.run.steps| ==>
      Count(s.log, UndoWon(i)) + (if s.run.steps[i].status.Success? then 1 else 0) <= Count(s.log, SavedSuccess(i))
  }

  lemma CoverKept(s: State, op: Op, t: State)
    requires Lawful(s, op, t) && UndoCovered(s)
    ensures UndoCovered(t)
  {
    forall i | 0 <= i < |t.run.steps|
      ensures Count(t.log, UndoWon(i)) +
          (if t.run.steps[i].status.Success? then 1 else 0) <= Count(t.log, SavedSuccess(i))
    {
      assert RowStep(s, op, t, i);
      if NewFact(s, t).Some? {
        CountNote(s.log, NewFact(s, t).value, UndoWon(i));
        CountNote(s.log, NewFact(s, t).value, SavedSuccess(i));
      }
    }
  }

  /** With no condition at all: every compensation claim on a step uses up a success recorded on it. */
  lemma {:induction false} NoDoubleUndo(env: Env, run: RunRow, ops: seq<Op>)
    requires forall i :: 0 <= i < |run.steps| ==> !run.steps[i].status.Success?
    ensures UndoCovered(Interleave(env, Begin(run), ops))
    decreases |ops|
  {
    if ops != [] {
      NoDoubleUndo(env, run, ops[..|ops| - 1]);
      NextLawful(env, Interleave(env, Begin(run), ops[..|ops| - 1]), ops[|ops| - 1]);
      CoverKept(Interleave(env, Begin(run), ops[..|ops| - 1]), ops[|ops| - 1], Interleave(env, Begin(run), ops));
    }
  }

  /* ---- the exact account ---- */

  /** A step that recorded a success stays SUCCESS or is on the way of being undone. */
  ghost predicate Exact(s: State, i: nat)
    requires i < |s.run.steps|
  {
    var row := s.run.steps[i].status;
    && Count(s.log, UndoWon(i)) + (if row.Success? then 1 else 0) == Count(s.log, SavedSuccess(i)) <= 1
    && (Count(s.log, SavedSuccess(i)) == 1 ==> row.Success? || Undone(row))
  }

  ghost predicate AllExact(s: State) {
    forall i: nat :: i < |s.run.steps| ==> Exact(s, i)
  }

  /** How a row's status moves next to what is logged about it, while every holder's step fits. */
  ghost predicate StatusMoves(a: StepStatus, b: StepStatus, f: Option<Fact>, i: nat) {
    if f == Some(UndoWon(i)) then a.Success? && b.Compensating?
    else if f == Some(SavedSuccess(i)) then a.Running? && b.Success?
    else a == b || (!a.Success? && !b.Success? && (Undone(a) ==> Undone(b)))
  }

  lemma HolderStatus(s: State, op: Op, i: nat, undoing: bool)
    requires HoldersFit(s) && i < |s.run.steps| && HeldBy(s, op, i, undoing)
    ensures s.run.steps[i].status == if undoing then StepStatus.Compensating else StepStatus.Running
  {
    assert PcFits(s, s.pcs[Worker(op).value]);
  }

  lemma RowStatusMoves(s: State, op: Op, t: State, i: nat)
    requires HoldersFit(s) && i < |s.run.steps| == |t.run.steps| && RowStep(s, op, t, i)
    ensures StatusMoves(s.run.steps[i].status, t.run.steps[i].status, NewFact(s, t), i)
  {
    if HeldBy(s, op, i, true) {
      HolderStatus(s, op, i, true);
    } else if HeldBy(s, op, i, false) {
      HolderStatus(s, op, i, false);
    }
  }

  lemma ExactKept(s: State, op: Op, t: State, i: nat)
    requires i < |s.run.steps| == |t.run.steps| && LogStep(s, t) && Exact(s, i)
    requires StatusMoves(s.run.steps[i].status, t.run.steps[i].status, NewFact(s, t), i)
    ensures Exact(t, i)
  {
    if NewFact(s, t).Some? {
      CountNote(s.log, NewFact(s, t).value, UndoWon(i));
      CountNote(s.log, NewFact(s, t).value, SavedSuccess(i));
    }
  }

  lemma AllExactKept(env: Env, s: State, op: Op)
    requires HoldersFit(s) && AllExact(s)
    ensures AllExact(Next(env, s, op))
  {
    var t := Next(env, s, op);
    NextLawful(env, s, op);
    forall i: nat | i < |t.run.steps| ensures Exact(t, i) {
      RowStatusMoves(s, op, t, i);
      ExactKept(s, op, t, i);
    }
  }

  lemma {:induction false} AlwaysExact(env: Env, s: State, ops: seq<Op>)
    requires Protocol(s) && AllExact(s) && FailStopRun(env, s, ops)
    ensures AllExact(Interleave(env, s, ops))
    decreases |ops|
  {
    if ops != [] {
      FailStopPrefix(env, s, ops);
      AlwaysExact(env, s, ops[..|ops| - 1]);
      ProtocolAlways(env, s, ops[..|ops| - 1]);
      AllExactKept(env, Interleave(env, s, ops[..|ops| - 1]), ops[|ops| - 1]);
    }
  }

  /** Under any interleaving of fail-stop workers, operator retries included: a step records at most one
      success, and its compensation claims, plus one while it says SUCCESS, are exactly as many. */
  lemma UndoneExactlyOnce(env: Env, tenant: string, pipeline: string, key: string, input: map<string, Json>, now: Time,
                          ops: seq<Op>)
    requires FailStopRun(env, Begin(FreshRun(env, tenant, pipeline, key, input, now)), ops)
    ensures AllExact(Interleave(env, Begin(FreshRun(env, tenant, pipeline, key, input, now)), ops))
  {
    AlwaysExact(env, Begin(FreshRun(env, tenant, pipeline, key, input, now)), ops);
  }
}
