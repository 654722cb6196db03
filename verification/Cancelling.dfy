/** A cancel at the grain of single database operations: exactly when everything that can follow it, under
    any number of workers, still keeps the saga promise. */
module Cancelling {
  import opened Wrappers
  import opened Workflow
  import opened EngineSpec
  import opened Coherence
  import opened Saga
  import opened Workers
  import opened Claims
  import PublishOnce
  import Solo

  ghost predicate NothingLeft(run: RunRow) {
    NoneIs(run, StepStatus.Success) && NoneIs(run, StepStatus.Pending)
  }

  /** A worker that may still act on what it read before the cancel: claim a step that waits, end the run
      with another status or before it is unwound, or blame a failure on it. */
  ghost predicate Endangers(s: State, pc: Pc) {
    match pc
    case Loaded(snap) =>
      if snap.status.Compensating? then !snap.reason.ByCancel?
      else if snap.index < |s.run.steps| then s.run.steps[snap.index].status.Pending?
      else s.run.steps != []
    case HasRow(snap) => snap.index < |s.run.steps| && s.run.steps[snap.index].status.Pending?
    case Skipping(snap) => !snap.reason.ByCancel? || !NoneIs(s.run, StepStatus.Success)
    case Finishing(status) =>
      if status.Success? then s.run.steps != [] else !status.Cancelled? || !NothingLeft(s.run)
    case FailureSaved => true
    case Exhausting => true
    case _ => false
  }

  predicate Retrying(pc: Pc) {
    pc.WantsRetry? || pc.Rearmed?
  }

  ghost predicate NoneRetries(s: State) {
    forall w :: w in s.pcs ==> !Retrying(s.pcs[w])
  }

  ghost predicate NoneEndangers(s: State) {
    forall w :: w in s.pcs ==> !Endangers(s, s.pcs[w])
  }

  /* ---- what a safe cancel keeps ---- */

  ghost predicate PcHarmless(s: State, pc: Pc) {
    match pc
    case Loaded(_) => !Endangers(s, pc)
    case HasRow(_) => !Endangers(s, pc)
    case Skipping(_) => !Endangers(s, pc)
    case Finishing(_) => !Endangers(s, pc)
    case _ =>
      pc.StepSaved? || pc.SawStale? || pc.HasTop? || pc.UndoOwned? || pc.UndoRan? || pc.Refreshing? || pc.Publishing?
  }

  ghost predicate StatusHarmless(run: RunRow) {
    && run.reason.ByCancel?
    && (run.status.Compensating? || (run.status.Cancelled? && NothingLeft(run)) ||
        (run.status.Success? && run.steps == []))
  }

  ghost predicate Harmless(s: State) {
    && NoneIs(s.run, StepStatus.Running) && NoneIs(s.run, StepStatus.Failed)
    && StatusHarmless(s.run)
    && forall w :: w in s.pcs ==> PcHarmless(s, s.pcs[w])
  }

  lemma HarmlessIsSettled(s: State)
    requires Harmless(s)
    ensures Settled(s.run)
  {}

  /** Rows only leave SUCCESS and PENDING, and never become RUNNING or FAILED. */
  ghost predicate Shrinks(a: RunRow, b: RunRow) {
    && |b.steps| == |a.steps|
    && forall i :: 0 <= i < |a.steps| ==>
         && (b.steps[i].status.Success? ==> a.steps[i].status.Success?)
         && (b.steps[i].status.Pending? ==> a.steps[i].status.Pending?)
         && !b.steps[i].status.Running? && !b.steps[i].status.Failed?
  }

  lemma PcStays(s: State, t: State, pc: Pc)
    requires Shrinks(s.run, t.run) && PcHarmless(s, pc)
    ensures PcHarmless(t, pc)
  {}

  /** What one operation does after a safe cancel: rows shrink, the status fits, and the acting worker is
      again at a place from which it can do no harm. */
  ghost predicate StaysHarmless(s: State, op: Op, t: State) {
    && Shrinks(s.run, t.run) && StatusHarmless(t.run)
    && (Worker(op).Some? && Worker(op).value in t.pcs ==> PcHarmless(t, t.pcs[Worker(op).value]))
  }

  lemma ReadsStay(env: Env, s: State, op: Op)
    requires Harmless(s) && op.Go? && op.w in s.pcs
    requires s.pcs[op.w].Loaded? || s.pcs[op.w].HasRow? || s.pcs[op.w].SawStale? || s.pcs[op.w].StepSaved?
    ensures StaysHarmless(s, op, Next(env, s, op))
  {}

  lemma TakeUndoStays(env: Env, s: State, op: Op)
    requires Harmless(s) && op.Go? && op.w in s.pcs && s.pcs[op.w].HasTop?
    ensures StaysHarmless(s, op, Next(env, s, op))
  {}

  lemma RunUndoStays(env: Env, s: State, op: Op)
    requires Harmless(s) && op.Go? && op.w in s.pcs && s.pcs[op.w].UndoOwned?
    ensures StaysHarmless(s, op, Next(env, s, op))
  {}

  lemma SaveUndoStays(env: Env, s: State, op: Op)
    requires Harmless(s) && op.Go? && op.w in s.pcs && s.pcs[op.w].UndoRan?
    ensures StaysHarmless(s, op, Next(env, s, op))
  {}

  lemma EndsStay(env: Env, s: State, op: Op)
    requires Harmless(s) && op.Go? && op.w in s.pcs
    requires s.pcs[op.w].Skipping? || s.pcs[op.w].Finishing? || s.pcs[op.w].Refreshing? || s.pcs[op.w].Publishing?
    ensures StaysHarmless(s, op, Next(env, s, op))
  {}

  lemma OthersAct(env: Env, s: State, op: Op)
    requires Harmless(s) && (!op.Go? || op.w !in s.pcs)
    ensures StaysHarmless(s, op, Next(env, s, op))
  {}

  lemma NextStays(env: Env, s: State, op: Op)
    requires Harmless(s)
    ensures Harmless(Next(env, s, op)) && Shrinks(s.run, Next(env, s, op).run)
  {
    var t := Next(env, s, op);
    if op.Go? && op.w in s.pcs {
      assert PcHarmless(s, s.pcs[op.w]);
      match s.pcs[op.w]
      case HasTop(_) => TakeUndoStays(env, s, op);
      case UndoOwned(_) => RunUndoStays(env, s, op);
      case UndoRan(_, _) => SaveUndoStays(env, s, op);
      case Skipping(_) | Finishing(_) | Refreshing(_) | Publishing(_) => EndsStay(env, s, op);
      case _ => ReadsStay(env, s, op);
    } else {
      OthersAct(env, s, op);
    }
    NextLawful(env, s, op);
    AllStay(s, op, t);
  }

  lemma AllStay(s: State, op: Op, t: State)
    requires Harmless(s) && StaysHarmless(s, op, t) && OthersStay(s, op, t)
    ensures Harmless(t)
  {
    forall w | w in t.pcs ensures PcHarmless(t, t.pcs[w]) {
      if Some(w) != Worker(op) {
        PcStays(s, t, s.pcs[w]);
      }
    }
  }

  lemma {:induction false} AlwaysStays(env: Env, s: State, ops: seq<Op>)
    requires Harmless(s)
    ensures Harmless(Interleave(env, s, ops))
    decreases |ops|
  {
    if ops != [] {
      AlwaysStays(env, s, ops[..|ops| - 1]);
      NextStays(env, Interleave(env, s, ops[..|ops| - 1]), ops[|ops| - 1]);
    }
  }

  /** No step row says RUNNING or FAILED, and no worker may still act on what it read before. */
  ghost predicate SafeToCancel(s: State) {
    NoneIs(s.run, StepStatus.Running) && NoneIs(s.run, StepStatus.Failed) && NoneEndangers(s)
  }

  lemma SafeCancelStarts(env: Env, s: State)
    requires Forward(s.run.status) && HoldersFit(s) && NoneRetries(s) && SafeToCancel(s)
    ensures Harmless(Next(env, s, CancelOp))
  {
    var t := Next(env, s, CancelOp);
    forall w | w in t.pcs ensures PcHarmless(t, t.pcs[w]) {
      assert PcFits(s, s.pcs[w]) && !Retrying(s.pcs[w]) && !Endangers(s, s.pcs[w]);
    }
  }

  /* ---- unwinding with bystanders: one more worker takes a compensating run to its end ---- */

  function Move(v: nat, now: Time): Op {
    Go(v, now, Returns("", 0), UndoReturns)
  }

  /** Only loads and moves: nobody dies, reclaims or asks for anything. */
  ghost predicate Plain(ops: seq<Op>) {
    forall k :: 0 <= k < |ops| ==> ops[k].Load? || ops[k].Go?
  }

  lemma {:induction false} FreshWorker(busy: set<nat>) returns (v: nat)
    ensures v !in busy && forall w :: w in busy ==> w < v
  {
    v := 0;
    if busy != {} {
      var w :| w in busy;
      var u := FreshWorker(busy - {w});
      v := if w < u then u else w + 1;
      assert forall x :: x in busy ==> x == w || x in busy - {w};
    }
  }

  /** Load and then n moves of one worker. */
  function Round(v: nat, n: nat): seq<Op> {
    [Load(v)] + Solo.Repeat(Move(v, 0), n)
  }

  lemma {:induction false} RepeatIsPlain(v: nat, n: nat)
    ensures Plain(Solo.Repeat(Move(v, 0), n))
  {
    if n > 0 {
      RepeatIsPlain(v, n - 1);
    }
  }

  lemma RoundUnrolls(env: Env, s: State, v: nat, n: nat)
    ensures Interleave(env, s, Round(v, n)) ==
            Interleave(env, Next(env, s, Load(v)), Solo.Repeat(Move(v, 0), n))
    ensures Plain(Round(v, n))
  {
    assert [] + [Load(v)] == [Load(v)];
    Solo.Then(env, s, [], Load(v));
    Solo.InSequence(env, s, [Load(v)], Solo.Repeat(Move(v, 0), n));
    RepeatIsPlain(v, n);
  }

  /** The same rows, but for one row's status. */
  ghost predicate RowsAre(a: RunRow, b: RunRow, top: nat, status: StepStatus) {
    && |b.steps| == |a.steps| && b.pipeline == a.pipeline
    && forall i :: 0 <= i < |a.steps| ==>
         b.steps[i].key == a.steps[i].key && b.steps[i].status == (if i == top then status else a.steps[i].status) &&
         (i != top ==> b.steps[i] == a.steps[i])
  }

  lemma Enters(env: Env, s: State, v: nat)
    requires v !in s.pcs && Active(s.run.status)
    ensures Next(env, s, Load(v)) == s.(pcs := s.pcs[v := Loaded(s.run)])
  {}

  lemma Looks(env: Env, s: State, v: nat, snap: RunRow)
    requires v in s.pcs && s.pcs[v] == Loaded(snap) && snap.status.Compensating?
    ensures var top := TopSuccess(s.run.steps);
            Next(env, s, Move(v, 0)) ==
            State(s.run, s.pcs[v := if top.None? then Skipping(snap) else HasTop(top.value)], s.log + [TopRead])
  {}

  lemma Takes(env: Env, s: State, v: nat, top: nat)
    requires v in s.pcs && s.pcs[v] == HasTop(top) && top < |s.run.steps| && s.run.steps[top].status.Success?
    ensures Next(env, s, Move(v, 0)) ==
            State(WithStep(s.run, top, Claim(s.run.steps[top], StepStatus.Compensating, 0)), s.pcs[v := UndoOwned(top)],
                  s.log + [UndoWon(top)])
  {}

  lemma Undoes(env: Env, s: State, v: nat, top: nat)
    requires v in s.pcs && s.pcs[v] == UndoOwned(top)
    ensures Next(env, s, Move(v, 0)) == s.(pcs := s.pcs[v := UndoRan(top, false)])
  {}

  lemma Saves(env: Env, s: State, v: nat, top: nat)
    requires v in s.pcs && s.pcs[v] == UndoRan(top, false) && top < |s.run.steps|
    ensures Next(env, s, Move(v, 0)) ==
            State(WithStep(s.run, top, s.run.steps[top].(status := StepStatus.Compensated, lockedAt := None)),
                s.pcs - {v}, s.log)
  {}

  lemma PutAgain(pcs: map<nat, Pc>, v: nat, x: Pc, y: Pc)
    ensures pcs[v := x][v := y] == pcs[v := y]
    ensures v !in pcs ==> pcs[v := x] - {v} == pcs
  {}

  lemma UndoMoves(env: Env, s: State, v: nat)
    requires s.run.status.Compensating? && v !in s.pcs && TopSuccess(s.run.steps).Some?
    ensures var op := Move(v, 0);
            var s0 := s.(pcs := s.pcs[v := Loaded(s.run)]);
            var t := Next(env, Next(env, Next(env, Next(env, s0, op), op), op), op);
            var top := TopSuccess(s.run.steps).value;
            && t.pcs == s.pcs && RowsAre(s.run, t.run, top, StepStatus.Compensated)
            && t.run.status == s.run.status && t.run.reason == s.run.reason
  {
    var top := TopSuccess(s.run.steps).value;
    var taken := WithStep(s.run, top, Claim(s.run.steps[top], StepStatus.Compensating, 0));
    var log := s.log + [TopRead];
    PutAgain(s.pcs, v, Loaded(s.run), HasTop(top));
    Looks(env, s.(pcs := s.pcs[v := Loaded(s.run)]), v, s.run);
    PutAgain(s.pcs, v, HasTop(top), UndoOwned(top));
    Takes(env, State(s.run, s.pcs[v := HasTop(top)], log), v, top);
    PutAgain(s.pcs, v, UndoOwned(top), UndoRan(top, false));
    Undoes(env, State(taken, s.pcs[v := UndoOwned(top)], log + [UndoWon(top)]), v, top);
    PutAgain(s.pcs, v, UndoRan(top, false), UndoRan(top, false));
    Saves(env, State(taken, s.pcs[v := UndoRan(top, false)], log + [UndoWon(top)]), v, top);
  }

  /** One worker undoes the highest SUCCESS and leaves; everyone else stays where they were. */
  lemma UndoTop(env: Env, s: State, v: nat)
    requires s.run.status.Compensating? && v !in s.pcs && TopSuccess(s.run.steps).Some?
    ensures var t := Interleave(env, s, Round(v, 4));
            var top := TopSuccess(s.run.steps).value;
            && Plain(Round(v, 4)) && t.pcs == s.pcs
            && RowsAre(s.run, t.run, top, StepStatus.Compensated)
            && t.run.status == s.run.status && t.run.reason == s.run.reason
  {
    RoundUnrolls(env, s, v, 4);
    Solo.FourTimes(env, Next(env, s, Load(v)), Move(v, 0));
    Enters(env, s, v);
    UndoMoves(env, s, v);
  }

  lemma Skips(env: Env, s: State, v: nat, snap: RunRow)
    requires v in s.pcs && s.pcs[v] == Skipping(snap)
    ensures Next(env, s, Move(v, 0)) ==
            State(s.run.(steps := SkipPending(s.run.steps)), s.pcs[v := Finishing(FinalStatus(snap.reason))], s.log)
  {}

  lemma Finishes(env: Env, s: State, v: nat, status: RunStatus)
    requires v in s.pcs && s.pcs[v] == Finishing(status) && Active(s.run.status)
    ensures Next(env, s, Move(v, 0)) ==
            State(s.run.(status := status, finishedAt := Some(0)), s.pcs[v := Refreshing(status)],
                s.log + [FinishWon(status)])
  {}

  lemma Announces(env: Env, s: State, v: nat, status: RunStatus)
    requires v in s.pcs && s.pcs[v] == Refreshing(status)
    ensures var t := Next(env, Next(env, s, Move(v, 0)), Move(v, 0)); t.run == s.run && t.pcs == s.pcs - {v}
  {
    PutAgain(s.pcs, v, Publishing(status), Publishing(status));
    assert s.pcs[v := Publishing(status)] - {v} == s.pcs - {v};
  }

  /** With no SUCCESS left, one worker skips what waits and finishes the run. */
  lemma EndUnwind(env: Env, s: State, v: nat)
    requires s.run.status.Compensating? && v !in s.pcs && TopSuccess(s.run.steps).None?
    ensures var t := Interleave(env, s, Round(v, 5));
            && Plain(Round(v, 5)) && t.pcs == s.pcs
            && t.run.steps == SkipPending(s.run.steps) && t.run.pipeline == s.run.pipeline
            && t.run.status == FinalStatus(s.run.reason) && t.run.reason == s.run.reason
  {
    RoundUnrolls(env, s, v, 5);
    Solo.FiveTimes(env, Next(env, s, Load(v)), Move(v, 0));
    var final := FinalStatus(s.run.reason);
    var swept := s.run.(steps := SkipPending(s.run.steps));
    var log := s.log + [TopRead];
    Enters(env, s, v);
    PutAgain(s.pcs, v, Loaded(s.run), Skipping(s.run));
    Looks(env, s.(pcs := s.pcs[v := Loaded(s.run)]), v, s.run);
    PutAgain(s.pcs, v, Skipping(s.run), Finishing(final));
    Skips(env, State(s.run, s.pcs[v := Skipping(s.run)], log), v, s.run);
    PutAgain(s.pcs, v, Finishing(final), Refreshing(final));
    Finishes(env, State(swept, s.pcs[v := Finishing(final)], log), v, final);
    PutAgain(s.pcs, v, Refreshing(final), Refreshing(final));
    Announces(env, State(swept.(status := final, finishedAt := Some(0)), s.pcs[v := Refreshing(final)],
        log + [FinishWon(final)]), v, final);
  }

  /** The status every row of an unwound run ends in. */
  function Unwound(s: StepStatus): StepStatus {
    match s
    case Success => StepStatus.Compensated
    case Pending => StepStatus.Skipped
    case _ => s
  }

  ghost predicate UnwoundFrom(a: RunRow, b: RunRow) {
    && |b.steps| == |a.steps| && b.pipeline == a.pipeline && b.status == FinalStatus(a.reason) && b.reason == a.reason
    && forall i :: 0 <= i < |a.steps| ==>
         b.steps[i].key == a.steps[i].key && b.steps[i].status == Unwound(a.steps[i].status) &&
         (Unwound(a.steps[i].status) == a.steps[i].status ==> b.steps[i] == a.steps[i])
  }

  function Successes(run: RunRow): set<nat> {
    set i: nat | i < |run.steps| && run.steps[i].status.Success?
  }

  lemma FewerSuccesses(a: RunRow, b: RunRow, top: nat)
    requires top < |a.steps| && a.steps[top].status.Success? && RowsAre(a, b, top, StepStatus.Compensated)
    ensures |Successes(b)| < |Successes(a)|
  {
    assert Successes(b) == Successes(a) - {top};
  }

  /** From any compensating run, with any workers standing where they stand, one more worker can unwind it to
      its terminal status. */
  lemma {:induction false} Unwinds(env: Env, s: State, v: nat) returns (ops: seq<Op>)
    requires s.run.status.Compensating? && v !in s.pcs
    ensures Plain(ops)
    ensures Interleave(env, s, ops).pcs == s.pcs && UnwoundFrom(s.run, Interleave(env, s, ops).run)
    decreases |Successes(s.run)|
  {
    var top := TopSuccess(s.run.steps);
    if top.None? {
      EndUnwind(env, s, v);
      ops := Round(v, 5);
    } else {
      UndoTop(env, s, v);
      var t := Interleave(env, s, Round(v, 4));
      FewerSuccesses(s.run, t.run, top.value);
      var rest := Unwinds(env, t, v);
      ops := Round(v, 4) + rest;
      Solo.InSequence(env, s, Round(v, 4), rest);
    }
  }

  /* ---- what an unsafe cancel loses ---- */

  ghost predicate Breaks(env: Env, s: State, ops: seq<Op>) {
    Plain(ops) && !Settled(Interleave(env, s, ops).run)
  }

  /** A compensating run with a RUNNING row ends with it. */
  lemma RunningRowBreaks(env: Env, s: State, i: nat) returns (ops: seq<Op>)
    requires s.run.status.Compensating? && i < |s.run.steps| && s.run.steps[i].status.Running?
    ensures Breaks(env, s, ops)
  {
    var v := FreshWorker(s.pcs.Keys);
    ops := Unwinds(env, s, v);
    assert Interleave(env, s, ops).run.steps[i].status.Running?;
  }

  /** A run cancelled over a FAILED row ends CANCELLED with it. */
  lemma FailedRowBreaks(env: Env, s: State, i: nat) returns (ops: seq<Op>)
    requires s.run.status.Compensating? && s.run.reason.ByCancel?
    requires i < |s.run.steps| && s.run.steps[i].status.Failed?
    ensures Breaks(env, s, ops)
  {
    var v := FreshWorker(s.pcs.Keys);
    ops := Unwinds(env, s, v);
    var t := Interleave(env, s, ops);
    assert t.run.status.Cancelled? && t.run.steps[i].status.Failed?;
  }

  lemma {:induction false} BreaksLater(env: Env, s: State, first: seq<Op>, rest: seq<Op>)
    requires Plain(first) && Breaks(env, Interleave(env, s, first), rest)
    ensures Breaks(env, s, first + rest)
  {
    Solo.InSequence(env, s, first, rest);
  }

  lemma OneOp(env: Env, s: State, op: Op)
    ensures Interleave(env, s, [op]) == Next(env, s, op)
  {
    assert [] + [op] == [op];
    Solo.Then(env, s, [], op);
  }

  /** A worker about to claim a waiting step claims it after the cancel. */
  lemma LateClaimBreaks(env: Env, s: State, w: nat) returns (ops: seq<Op>)
    requires s.run.status.Compensating? && w in s.pcs && s.pcs[w].HasRow?
    requires s.pcs[w].snap.index < |s.run.steps| && s.run.steps[s.pcs[w].snap.index].status.Pending?
    ensures Breaks(env, s, ops)
  {
    OneOp(env, s, Move(w, 0));
    var rest := RunningRowBreaks(env, Next(env, s, Move(w, 0)), s.pcs[w].snap.index);
    ops := [Move(w, 0)] + rest;
    BreaksLater(env, s, [Move(w, 0)], rest);
  }

  /** A worker about to finish the run as a success does so when some step is no longer one. */
  lemma LateFinishBreaks(env: Env, s: State, w: nat) returns (ops: seq<Op>)
    requires s.run.status.Compensating? && w in s.pcs && s.pcs[w] == Finishing(RunStatus.Success) && s.run.steps != []
    ensures Breaks(env, s, ops)
  {
    if TopSuccess(s.run.steps) == Some(|s.run.steps| - 1) {
      var v := FreshWorker(s.pcs.Keys);
      UndoTop(env, s, v);
      OneOp(env, Interleave(env, s, Round(v, 4)), Move(w, 0));
      ops := Round(v, 4) + [Move(w, 0)];
      assert Next(env, Interleave(env, s, Round(v, 4)), Move(w, 0)).run.steps[|s.run.steps| - 1].status.Compensated?;
      BreaksLater(env, s, Round(v, 4), [Move(w, 0)]);
    } else {
      OneOp(env, s, Move(w, 0));
      assert !s.run.steps[|s.run.steps| - 1].status.Success?;
      ops := [Move(w, 0)];
    }
  }

  /** A worker about to end the run with a status that does not fit ends it so. */
  lemma WrongEndBreaks(env: Env, s: State, w: nat, status: RunStatus) returns (ops: seq<Op>)
    requires s.run.status.Compensating? && s.run.reason.ByCancel? && w in s.pcs && s.pcs[w] == Finishing(status)
    requires status.Failed? || (status.Cancelled? && !NothingLeft(s.run))
    ensures Breaks(env, s, ops)
  {
    OneOp(env, s, Move(w, 0));
    ops := [Move(w, 0)];
    var t := Next(env, s, Move(w, 0));
    assert t.run == s.run.(status := status, finishedAt := Some(0));
  }

  /** A worker about to skip what waits, over steps not yet undone or for another reason, ends the run so. */
  lemma LateSkipBreaks(env: Env, s: State, w: nat, snap: RunRow) returns (ops: seq<Op>)
    requires s.run.status.Compensating? && s.run.reason.ByCancel? && w in s.pcs && s.pcs[w] == Skipping(snap)
    requires !snap.reason.ByCancel? || !NoneIs(s.run, StepStatus.Success)
    ensures Breaks(env, s, ops)
  {
    Skips(env, s, w, snap);
    OneOp(env, s, Move(w, 0));
    var t := Next(env, s, Move(w, 0));
    if !NoneIs(s.run, StepStatus.Success) {
      var i :| 0 <= i < |s.run.steps| && s.run.steps[i].status.Success?;
      assert t.run.steps[i].status.Success?;
    }
    var rest := WrongEndBreaks(env, t, w, FinalStatus(snap.reason));
    ops := [Move(w, 0)] + rest;
    BreaksLater(env, s, [Move(w, 0)], rest);
  }

  /** One more worker undoes every SUCCESS and leaves the run compensating. */
  lemma {:induction false} UndoesAll(env: Env, s: State, v: nat) returns (ops: seq<Op>)
    requires s.run.status.Compensating? && v !in s.pcs
    ensures Plain(ops)
    ensures var t := Interleave(env, s, ops);
            t.pcs == s.pcs && t.run.status.Compensating? && t.run.reason == s.run.reason &&
                TopSuccess(t.run.steps).None?
    decreases |Successes(s.run)|
  {
    var top := TopSuccess(s.run.steps);
    ops := [];
    if top.Some? {
      UndoTop(env, s, v);
      var t := Interleave(env, s, Round(v, 4));
      FewerSuccesses(s.run, t.run, top.value);
      var rest := UndoesAll(env, t, v);
      ops := Round(v, 4) + rest;
      Solo.InSequence(env, s, Round(v, 4), rest);
    }
  }

  /** A worker that loaded the run compensating for another reason ends it for that one. */
  lemma OtherReasonBreaks(env: Env, s: State, w: nat, snap: RunRow) returns (ops: seq<Op>)
    requires s.run.status.Compensating? && s.run.reason.ByCancel? && w in s.pcs && s.pcs[w] == Loaded(snap)
    requires snap.status.Compensating? && !snap.reason.ByCancel?
    ensures Breaks(env, s, ops)
  {
    var v := FreshWorker(s.pcs.Keys);
    var first := UndoesAll(env, s, v);
    var t := Interleave(env, s, first);
    Looks(env, t, w, snap);
    OneOp(env, t, Move(w, 0));
    var rest := LateSkipBreaks(env, Next(env, t, Move(w, 0)), w, snap);
    BreaksLater(env, t, [Move(w, 0)], rest);
    ops := first + ([Move(w, 0)] + rest);
    BreaksLater(env, s, first, [Move(w, 0)] + rest);
  }

  /** A worker about to blame a failure on the run does so, and the run ends FAILED with no failed step. */
  lemma LateBlameBreaks(env: Env, s: State, w: nat) returns (ops: seq<Op>)
    requires s.run.status.Compensating? && w in s.pcs && (s.pcs[w].FailureSaved? || s.pcs[w].Exhausting?)
    requires NoneIs(s.run, StepStatus.Failed)
    ensures Breaks(env, s, ops)
  {
    OneOp(env, s, Move(w, 0));
    var t := Next(env, s, Move(w, 0));
    var v := FreshWorker(t.pcs.Keys);
    var rest := Unwinds(env, t, v);
    assert Interleave(env, t, rest).run.status.Failed? && NoneIs(Interleave(env, t, rest).run, StepStatus.Failed);
    ops := [Move(w, 0)] + rest;
    BreaksLater(env, s, [Move(w, 0)], rest);
  }

  /** A worker that has just loaded the run goes on to read its row, late enough for any backoff. */
  lemma LateReadBreaks(env: Env, s: State, w: nat) returns (ops: seq<Op>)
    requires s.run.status.Compensating? && w in s.pcs && s.pcs[w].Loaded? && Endangers(s, s.pcs[w])
    requires !s.pcs[w].snap.status.Compensating?
    ensures Breaks(env, s, ops)
  {
    var snap := s.pcs[w].snap;
    var late := if snap.index < |s.run.steps| && s.run.steps[snap.index].nextAttemptAt.Some?
                then s.run.steps[snap.index].nextAttemptAt.value else 0;
    var t := Next(env, s, Move(w, late));
    OneOp(env, s, Move(w, late));
    assert t.run == s.run;
    var rest: seq<Op>;
    if snap.index < |s.run.steps| {
      assert t.pcs[w] == HasRow(snap);
      rest := LateClaimBreaks(env, t, w);
    } else {
      assert t.pcs[w] == Finishing(RunStatus.Success);
      rest := LateFinishBreaks(env, t, w);
    }
    ops := [Move(w, late)] + rest;
    BreaksLater(env, s, [Move(w, late)], rest);
  }

  lemma EndangeringBreaks(env: Env, t: State, w: nat) returns (ops: seq<Op>)
    requires t.run.status.Compensating? && t.run.reason.ByCancel? && NoneIs(t.run, StepStatus.Failed)
    requires w in t.pcs && Endangers(t, t.pcs[w]) && PublishOnce.FinishersFit(t)
    ensures Breaks(env, t, ops)
  {
    match t.pcs[w]
    case Loaded(snap) =>
      if snap.status.Compensating? {
        ops := OtherReasonBreaks(env, t, w, snap);
      } else {
        ops := LateReadBreaks(env, t, w);
      }
    case HasRow(_) => ops := LateClaimBreaks(env, t, w);
    case Skipping(snap) => ops := LateSkipBreaks(env, t, w, snap);
    case Finishing(status) =>
      if status.Success? {
        ops := LateFinishBreaks(env, t, w);
      } else {
        ops := WrongEndBreaks(env, t, w, status);
      }
    case FailureSaved => ops := LateBlameBreaks(env, t, w);
    case Exhausting => ops := LateBlameBreaks(env, t, w);
  }

  lemma UnsafeCancelBreaks(env: Env, s: State) returns (ops: seq<Op>)
    requires Forward(s.run.status) && PublishOnce.FinishersFit(s) && !SafeToCancel(s)
    ensures Breaks(env, Next(env, s, CancelOp), ops)
  {
    var t := Next(env, s, CancelOp);
    assert t.run.steps == s.run.steps && t.pcs == s.pcs;
    if !NoneIs(s.run, StepStatus.Running) {
      var i: nat :| i < |s.run.steps| && s.run.steps[i].status.Running?;
      ops := RunningRowBreaks(env, t, i);
    } else if !NoneIs(s.run, StepStatus.Failed) {
      var i: nat :| i < |s.run.steps| && s.run.steps[i].status.Failed?;
      ops := FailedRowBreaks(env, t, i);
    } else {
      var w :| w in s.pcs && Endangers(s, s.pcs[w]);
      ops := EndangeringBreaks(env, t, w);
    }
  }

  /** Every interleaving that follows keeps the promise. */
  ghost predicate KeepsPromise(env: Env, s: State) {
    forall ops: seq<Op> :: Settled(Interleave(env, s, ops).run)
  }

  lemma BrokenPromise(env: Env, s: State, ops: seq<Op>)
    requires Breaks(env, s, ops)
    ensures !KeepsPromise(env, s)
  {
    assert !Settled(Interleave(env, s, ops).run);
  }

  lemma HarmlessKeepsPromise(env: Env, s: State)
    requires Harmless(s)
    ensures KeepsPromise(env, s)
  {
    forall ops: seq<Op> ensures Settled(Interleave(env, s, ops).run) {
      AlwaysStays(env, s, ops);
      HarmlessIsSettled(Interleave(env, s, ops));
    }
  }

  /** Exactly when a cancel is safe under interleaving. In any forward run whose claimed steps belong to their
      claimers and that nobody is retrying, every interleaving that follows the cancel keeps the promise if
      and only if, as it lands, no step says RUNNING or FAILED and no worker may still act on what it read
      before. */
  lemma CancelSafeIff(env: Env, s: State)
    requires Forward(s.run.status) && HoldersFit(s) && NoneRetries(s) && PublishOnce.FinishersFit(s)
    ensures SafeToCancel(s) <==> KeepsPromise(env, Next(env, s, CancelOp))
  {
    if SafeToCancel(s) {
      SafeCancelStarts(env, s);
      HarmlessKeepsPromise(env, Next(env, s, CancelOp));
    } else {
      var ops := UnsafeCancelBreaks(env, s);
      BrokenPromise(env, Next(env, s, CancelOp), ops);
    }
  }

  /* ---- at any moment of any history ---- */

  ghost predicate RetryFree(ops: seq<Op>) {
    forall k :: 0 <= k < |ops| ==> !ops[k].AskRetry?
  }

  lemma {:induction false} NobodyRetries(env: Env, s: State, ops: seq<Op>)
    requires NoneRetries(s) && PublishOnce.FinishersFit(s) && RetryFree(ops)
    ensures NoneRetries(Interleave(env, s, ops)) && PublishOnce.FinishersFit(Interleave(env, s, ops))
    decreases |ops|
  {
    if ops != [] {
      var before := Interleave(env, s, ops[..|ops| - 1]);
      NobodyRetries(env, s, ops[..|ops| - 1]);
      PublishOnce.FinishersStayFit(env, before, ops[|ops| - 1]);
      NextRetries(env, before, ops[|ops| - 1]);
    }
  }

  lemma MovesOn(env: Env, s: State, op: Op)
    requires op.Go? && op.w in s.pcs && !Retrying(s.pcs[op.w])
    ensures op.w in Next(env, s, op).pcs ==> !Retrying(Next(env, s, op).pcs[op.w])
  {
    match s.pcs[op.w]
    case Loaded(_) | HasRow(_) | ClaimWon(_) | Refreshed(_, _) | Ready(_, _) =>
    case Succeeding(_, _, _) | Failing(_, _, _, _) | StepSaved(_, _, _) | FailureSaved | SawStale(_, _, _) |
        Exhausting =>
    case _ =>
  }

  lemma NextRetries(env: Env, s: State, op: Op)
    requires NoneRetries(s) && !op.AskRetry?
    ensures NoneRetries(Next(env, s, op))
  {
    var t := Next(env, s, op);
    NextLawful(env, s, op);
    if op.Go? && op.w in s.pcs {
      MovesOn(env, s, op);
    }
    forall w | w in t.pcs ensures !Retrying(t.pcs[w]) {
      assert Some(w) != Worker(op) ==> w in s.pcs && t.pcs[w] == s.pcs[w];
    }
  }

  /** From a fresh run, at any moment of any retry-free interleaving of fail-stop workers, earlier cancels,
      deaths and reclaims included: if the run is forward, a cancel now is safe exactly when no step says
      RUNNING or FAILED and no worker may still act on what it read before. */
  lemma CancelSafeAnytime(env: Env, tenant: string, pipeline: string, key: string, input: map<string, Json>, now: Time,
                          ops: seq<Op>)
    requires FailStopRun(env, Begin(FreshRun(env, tenant, pipeline, key, input, now)), ops) && RetryFree(ops)
    ensures var s := Interleave(env, Begin(FreshRun(env, tenant, pipeline, key, input, now)), ops);
            Forward(s.run.status) ==> (SafeToCancel(s) <==> KeepsPromise(env, Next(env, s, CancelOp)))
  {
    var start := Begin(FreshRun(env, tenant, pipeline, key, input, now));
    ProtocolAlways(env, start, ops);
    NobodyRetries(env, start, ops);
    if Forward(Interleave(env, start, ops).run.status) {
      CancelSafeIff(env, Interleave(env, start, ops));
    }
  }
}
