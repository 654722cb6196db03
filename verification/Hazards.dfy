/** Why the fine-grained promises carry their hypotheses: concrete interleavings that break each of
    them when its hypothesis is dropped. */
module Hazards {
  import opened Wrappers
  import opened Workflow
  import opened EngineSpec
  import opened Workers
  import opened Claims
  import opened UndoOrder
  import opened Solo
  import Saga
  import Stalled
  import opened Cancelling

  function OneStep(key: string): StepDef {
    StepDef(key, 2, (n: nat) => 0, None, true)
  }

  function TwoStepEnv(): Env {
    Env((p: string) => [OneStep("a"), OneStep("b")], 600, 50)
  }

  function Row(key: string, status: StepStatus): StepRow {
    StepRow(key, status, 0, None, None, "")
  }

  function SecondStepDue(): RunRow {
    RunRow("t", "p", "", RunStatus.Running, NoReason, 1, [Row("a", StepStatus.Success), Row("b", StepStatus.Pending)],
           map[], 0, Some(0), None)
  }

  /* ---- a script: the operations of an interleaving and the state after each ---- */

  ghost predicate Plays(env: Env, states: seq<State>, ops: seq<Op>, k: nat) {
    |states| == |ops| + 1 && (k < |ops| ==> Next(env, states[k], ops[k]) == states[k + 1])
  }

  lemma PlayedOne(env: Env, s: State, done: seq<Op>, states: seq<State>, ops: seq<Op>, k: nat)
    requires k < |ops| && Plays(env, states, ops, k) && Interleave(env, s, done) == states[k]
    ensures Interleave(env, s, done + [ops[k]]) == states[k + 1]
  {
    Then(env, s, done, ops[k]);
  }

  lemma {:induction false} Played(env: Env, states: seq<State>, ops: seq<Op>, k: nat)
    requires |states| == |ops| + 1 && k <= |ops|
    requires forall j :: 0 <= j < k ==> Plays(env, states, ops, j)
    ensures Interleave(env, states[0], ops[..k]) == states[k]
  {
    if k > 0 {
      Played(env, states, ops, k - 1);
      assert ops[..k] == ops[..k - 1] + [ops[k - 1]];
      PlayedOne(env, states[0], ops[..k - 1], states, ops, k - 1);
    }
  }

  /* ---- a success recorded after compensation began ---- */

  function LateOps(): seq<Op> {
    [Load(1), Move(1, 0), Move(1, 0), Move(1, 0), Move(1, 0), Move(1, 0), CancelOp,
     Load(2), Move(2, 0), Move(2, 0), Move(1, 0), Load(3), Move(3, 0), Move(3, 0)]
  }

  function LateStates(): seq<State> {
    var run := SecondStepDue();
    var c := Claim(run.steps[1], StepStatus.Running, 0);
    var begun := WithStep(run, 1, c);
    var cancelled := begun.(status := RunStatus.Compensating, reason := ByCancel);
    var u := Claim(run.steps[0], StepStatus.Compensating, 0);
    var unwinding := WithStep(cancelled, 0, u);
    var late := WithStep(unwinding, 1, c.(status := StepStatus.Success, lockedAt := None));
    var busy := Succeeding(run, c, "");
    var l2 := [Won(1), Ran(1, 1)];
    var l4 := l2 + [TopRead, UndoWon(0)];
    var l6 := l4 + [SavedSuccess(1), TopRead];
    var saved := map[1 := StepSaved(run, c, ""), 2 := UndoOwned(0)];
    [ Begin(run),
      State(run, map[1 := Loaded(run)], []),
      State(run, map[1 := HasRow(run)], []),
      State(begun, map[1 := ClaimWon(run)], [Won(1)]),
      State(begun, map[1 := Refreshed(run, c)], [Won(1)]),
      State(begun, map[1 := Ready(run, c)], [Won(1)]),
      State(begun, map[1 := busy], l2),
      State(cancelled, map[1 := busy], l2),
      State(cancelled, map[1 := busy, 2 := Loaded(cancelled)], l2),
      State(cancelled, map[1 := busy, 2 := HasTop(0)], l2 + [TopRead]),
      State(unwinding, map[1 := busy, 2 := UndoOwned(0)], l4),
      State(late, saved, l4 + [SavedSuccess(1)]),
      State(late, saved[3 := Loaded(late)], l4 + [SavedSuccess(1)]),
      State(late, saved[3 := HasTop(1)], l6),
      State(WithStep(late, 1, Claim(late.steps[1], StepStatus.Compensating, 0)), saved[3 := UndoOwned(1)],
          l6 + [UndoWon(1)]) ]
  }

  lemma SecondFound()
    ensures FindStep(TwoStepEnv().registry("p"), "b") == Some(OneStep("b"))
  {
    assert TwoStepEnv().registry("p")[1..] == [OneStep("b")];
  }

  lemma LatePlaysFirst(k: nat)
    requires k < 5
    ensures Plays(TwoStepEnv(), LateStates(), LateOps(), k)
  {}

  lemma LatePlaysBody(k: nat)
    requires k == 5
    ensures Plays(TwoStepEnv(), LateStates(), LateOps(), k)
  {
    SecondFound();
  }

  lemma LatePlaysThen(k: nat)
    requires 6 <= k < 10
    ensures Plays(TwoStepEnv(), LateStates(), LateOps(), k)
  {}

  lemma LatePlaysLast(k: nat)
    requires 10 <= k < 14
    ensures Plays(TwoStepEnv(), LateStates(), LateOps(), k)
  {}

  /** Worker 1 is in the body of step 1 when a cancel arrives; worker 2 unwinds step 0; then worker 1
      records its success and worker 3 unwinds step 1: upwards. Nobody died and nothing was reclaimed. */
  lemma LateSuccessUnwindsUpwards()
    ensures var log := Interleave(TwoStepEnv(), Begin(SecondStepDue()), LateOps()).log;
            !Downwards(log) && !NoLateSuccess(log)
  {
    forall k | 0 <= k < 14 ensures Plays(TwoStepEnv(), LateStates(), LateOps(), k) {
      if k < 5 {
        LatePlaysFirst(k);
      } else if k == 5 {
        LatePlaysBody(k);
      } else if k < 10 {
        LatePlaysThen(k);
      } else {
        LatePlaysLast(k);
      }
    }
    Played(TwoStepEnv(), LateStates(), LateOps(), 14);
    assert LateOps()[..14] == LateOps();
    var log := LateStates()[14].log;
    assert log[2] == TopRead && log[3] == UndoWon(0) && log[4] == SavedSuccess(1) && log[6] == UndoWon(1);
  }

  /* ---- a reclaimed worker that is not dead ---- */

  function FirstStepDue(): RunRow {
    RunRow("t", "p", "", RunStatus.Running, NoReason, 0, [Row("a", StepStatus.Pending)], map[], 0, Some(0), None)
  }

  function ZombieOps(): seq<Op> {
    [Load(1), Move(1, 0), Move(1, 0), Scan(9, 0, 600), Move(9, 600), Load(2), Move(2, 600), Move(2, 600),
     Move(1, 600), Move(2, 600), Move(1, 600), Move(2, 600), Move(1, 600), Move(2, 600)]
  }

  function ZombieStates(): seq<State> {
    var run := FirstStepDue();
    var c1 := Claim(run.steps[0], StepStatus.Running, 0);
    var held := WithStep(run, 0, c1);
    var again := c1.(status := StepStatus.Pending, lockedAt := None);
    var freed := WithStep(run, 0, again);
    var c2 := Claim(again, StepStatus.Running, 600);
    var taken := WithStep(run, 0, c2);
    var won := [Won(0), Won(0)];
    [ Begin(run),
      State(run, map[1 := Loaded(run)], []),
      State(run, map[1 := HasRow(run)], []),
      State(held, map[1 := ClaimWon(run)], [Won(0)]),
      State(held, map[1 := ClaimWon(run), 9 := SawStale(0, c1, true)], [Won(0)]),
      State(freed, map[1 := ClaimWon(run)], [Won(0)]),
      State(freed, map[1 := ClaimWon(run), 2 := Loaded(freed)], [Won(0)]),
      State(freed, map[1 := ClaimWon(run), 2 := HasRow(freed)], [Won(0)]),
      State(taken, map[1 := ClaimWon(run), 2 := ClaimWon(freed)], won),
      State(taken, map[1 := Refreshed(run, c2), 2 := ClaimWon(freed)], won),
      State(taken, map[1 := Refreshed(run, c2), 2 := Refreshed(freed, c2)], won),
      State(taken, map[1 := Ready(run, c2), 2 := Refreshed(freed, c2)], won),
      State(taken, map[1 := Ready(run, c2), 2 := Ready(freed, c2)], won),
      State(taken, map[1 := Succeeding(run, c2, ""), 2 := Ready(freed, c2)], won + [Ran(0, 2)]),
      State(taken, map[1 := Succeeding(run, c2, ""), 2 := Succeeding(freed, c2, "")], won + [Ran(0, 2), Ran(0, 2)]) ]
  }

  lemma ZombiePlaysFirst(k: nat)
    requires k < 5
    ensures Plays(TwoStepEnv(), ZombieStates(), ZombieOps(), k)
  {}

  lemma ZombiePlaysThen(k: nat)
    requires 5 <= k < 10
    ensures Plays(TwoStepEnv(), ZombieStates(), ZombieOps(), k)
  {}

  lemma ZombiePlaysLast(k: nat)
    requires 10 <= k < 14
    ensures Plays(TwoStepEnv(), ZombieStates(), ZombieOps(), k)
  {}

  lemma CountsTwice(log: seq<Fact>, f: Fact)
    requires |log| == 4 && log[0] != f && log[1] != f && log[2] == f && log[3] == f
    ensures Count(log, f) == 2
  {
    assert Count(log[..2], f) == 0 by { assert Count(log[..2][..1], f) == 0; }
    assert log[..3][..2] == log[..2];
  }

  /** Worker 1 stalls right after its claim and is reclaimed while alive; worker 2 claims the step again;
      both then read back attempt 2 and run the body under it. */
  lemma ZombieRunsTwice()
    ensures var log := Interleave(TwoStepEnv(), Begin(FirstStepDue()), ZombieOps()).log;
            Count(log, Ran(0, 2)) == 2
    ensures !FailStopRun(TwoStepEnv(), Begin(FirstStepDue()), ZombieOps())
  {
    var env, states, ops := TwoStepEnv(), ZombieStates(), ZombieOps();
    forall k | 0 <= k < 14 ensures Plays(env, states, ops, k) {
      if k < 5 { ZombiePlaysFirst(k); } else if k < 10 { ZombiePlaysThen(k); } else { ZombiePlaysLast(k); }
    }
    Played(env, states, ops, 14);
    Played(env, states, ops, 4);
    ZombieEnds();
  }

  lemma ZombieEnds()
    ensures ZombieStates()[0] == Begin(FirstStepDue()) && ZombieOps()[..14] == ZombieOps()
    ensures Count(ZombieStates()[14].log, Ran(0, 2)) == 2
    ensures !FailStop(ZombieStates()[4], ZombieOps()[4])
  {
    CountsTwice(ZombieStates()[14].log, Ran(0, 2));
    assert Holds(ZombieStates()[4].pcs[1]) == Some(0);
  }

  /* ---- a cancel between a worker's read of the run and its claim ---- */

  /** Worker 1 has read the run and found its step waiting; the cancel lands; worker 1 claims. */
  function BetweenOps(): seq<Op> {
    [Load(1), Move(1, 0), CancelOp, Move(1, 0)]
  }

  function BetweenStates(): seq<State> {
    var run := SecondStepDue();
    var cancelled := run.(status := RunStatus.Compensating, reason := ByCancel);
    [ Begin(run),
      State(run, map[1 := Loaded(run)], []),
      State(run, map[1 := HasRow(run)], []),
      State(cancelled, map[1 := HasRow(run)], []),
      State(WithStep(cancelled, 1, Claim(run.steps[1], StepStatus.Running, 0)), map[1 := ClaimWon(run)], [Won(1)]) ]
  }

  lemma BetweenPlays(k: nat)
    requires k < 4
    ensures Plays(TwoStepEnv(), BetweenStates(), BetweenOps(), k)
  {}

  /** A worker that has won its claim reads the row back, runs the body and saves the success, whatever the
      run's status says by then. */
  lemma WinnerSaves(s: State, snap: RunRow)
    requires s.pcs == map[1 := ClaimWon(snap)] && snap.index == 1 && !snap.status.Queued?
    requires s.run.pipeline == "p" && |s.run.steps| == 2 && s.run.steps[1].key == "b"
    ensures var t := Interleave(TwoStepEnv(), s, Repeat(Move(1, 0), 4));
            |t.run.steps| == 2 && t.run.steps[1].status.Success? && t.run.status == s.run.status
  {
    FourTimes(TwoStepEnv(), s, Move(1, 0));
    var row := s.run.steps[1];
    WinnerIsReady(s, snap);
    ReadySucceeds(s.(pcs := map[1 := Ready(snap, row)]), snap, row);
  }

  lemma WinnerIsReady(s: State, snap: RunRow)
    requires s.pcs == map[1 := ClaimWon(snap)] && snap.index == 1 && !snap.status.Queued? && |s.run.steps| == 2
    ensures Next(TwoStepEnv(), Next(TwoStepEnv(), s, Move(1, 0)), Move(1, 0)) ==
            s.(pcs := map[1 := Ready(snap, s.run.steps[1])])
  {
    var row := s.run.steps[1];
    PutAgain(map[], 1, ClaimWon(snap), Refreshed(snap, row));
    PutAgain(map[], 1, Refreshed(snap, row), Ready(snap, row));
  }

  lemma ReadySucceeds(s: State, snap: RunRow, row: StepRow)
    requires s.pcs == map[1 := Ready(snap, row)] && snap.index == 1 && |s.run.steps| == 2
    requires s.run.pipeline == "p" && row.key == "b"
    ensures var t := Next(TwoStepEnv(), Next(TwoStepEnv(), s, Move(1, 0)), Move(1, 0));
            |t.run.steps| == 2 && t.run.steps[1].status.Success? && t.run.status == s.run.status
  {
    SecondFound();
    var s1 := Next(TwoStepEnv(), s, Move(1, 0));
    assert s1.run == s.run && 1 in s1.pcs && s1.pcs[1] == Succeeding(snap, row, "");
  }

  lemma BetweenPlayed()
    ensures Interleave(TwoStepEnv(), Begin(SecondStepDue()), BetweenOps()[..2]) == BetweenStates()[2]
    ensures Interleave(TwoStepEnv(), Begin(SecondStepDue()), BetweenOps()) == BetweenStates()[4]
  {
    forall k | 0 <= k < 4 ensures Plays(TwoStepEnv(), BetweenStates(), BetweenOps(), k) {
      BetweenPlays(k);
    }
    Played(TwoStepEnv(), BetweenStates(), BetweenOps(), 2);
    Played(TwoStepEnv(), BetweenStates(), BetweenOps(), 4);
    assert BetweenOps()[..4] == BetweenOps();
  }

  lemma BetweenIsInOrder()
    ensures Saga.InOrder(TwoStepEnv(), SecondStepDue()) && Forward(SecondStepDue().status) && Saga.Idle(SecondStepDue())
  {}

  lemma BetweenEnds(s: State) returns (rest: seq<Op>)
    requires s.run.status.Compensating? && s.run.reason.ByCancel? && s.pcs == map[1 := ClaimWon(SecondStepDue())]
    requires s.run.pipeline == "p" && |s.run.steps| == 2 && s.run.steps[1].key == "b"
    ensures Plain(rest)
    ensures var t := Interleave(TwoStepEnv(), s, rest);
            t.run.status.Cancelled? && |t.run.steps| == 2 && t.run.steps[1].status.Success?
  {
    var end := Unwinds(TwoStepEnv(), s, 2);
    RepeatIsPlain(1, 4);
    WinnerSaves(Interleave(TwoStepEnv(), s, end), SecondStepDue());
    rest := end + Repeat(Move(1, 0), 4);
    InSequence(TwoStepEnv(), s, end, Repeat(Move(1, 0), 4));
  }

  /** The cancel finds the run in order and no step marked RUNNING, and yet, with nobody dying, reclaiming or
      retrying, the run ends CANCELLED with a step that succeeded and is never undone: the worker that had
      read the run before claims the step after the cancel, another unwinds and ends the run, and the first
      saves its success. */
  lemma CancelBetweenReadAndClaim() returns (rest: seq<Op>)
    ensures var s := Interleave(TwoStepEnv(), Begin(SecondStepDue()), BetweenOps()[..2]);
            Saga.InOrder(TwoStepEnv(), s.run) && Forward(s.run.status) && Saga.Idle(s.run) &&
                BetweenOps()[2] == CancelOp
    ensures Plain(rest)
    ensures var t := Interleave(TwoStepEnv(), Begin(SecondStepDue()), BetweenOps() + rest);
            t.run.status.Cancelled? && |t.run.steps| == 2 && t.run.steps[1].status.Success? && !Saga.Settled(t.run)
  {
    BetweenPlayed();
    BetweenIsInOrder();
    rest := BetweenEnds(BetweenStates()[4]);
    InSequence(TwoStepEnv(), Begin(SecondStepDue()), BetweenOps(), rest);
  }

  /* ---- a cancel that finds a failed step whose run was never told ---- */

  function OneShotEnv(): Env {
    Env((p: string) => [StepDef("a", 1, (n: nat) => 0, None, true)], 600, 50)
  }

  function Raising(w: nat): Op {
    Go(w, 0, Raises(0), UndoReturns)
  }

  function BlameOps(): seq<Op> {
    [Load(1), Raising(1), Raising(1), Raising(1), Raising(1), Raising(1), Raising(1), Kill(1)]
  }

  function BlameStates(): seq<State> {
    var run := FirstStepDue();
    var c := Claim(run.steps[0], StepStatus.Running, 0);
    var held := WithStep(run, 0, c);
    var failed := WithStep(run, 0, c.(status := StepStatus.Failed, lockedAt := None));
    var log := [Won(0), Ran(0, 1)];
    [ Begin(run),
      State(run, map[1 := Loaded(run)], []),
      State(run, map[1 := HasRow(run)], []),
      State(held, map[1 := ClaimWon(run)], [Won(0)]),
      State(held, map[1 := Refreshed(run, c)], [Won(0)]),
      State(held, map[1 := Ready(run, c)], [Won(0)]),
      State(held, map[1 := Failing(run, c, 1, 0)], log),
      State(failed, map[1 := FailureSaved], log),
      State(failed, map[], log) ]
  }

  lemma BlamePlays(k: nat)
    requires k < 8
    ensures Plays(OneShotEnv(), BlameStates(), BlameOps(), k)
  {}

  lemma BlamePlayed()
    ensures Interleave(OneShotEnv(), Begin(FirstStepDue()), BlameOps()) == BlameStates()[8]
  {
    forall k | 0 <= k < 8 ensures Plays(OneShotEnv(), BlameStates(), BlameOps(), k) {
      BlamePlays(k);
    }
    Played(OneShotEnv(), BlameStates(), BlameOps(), 8);
    assert BlameOps()[..8] == BlameOps();
  }

  /** A worker saves its step FAILED and dies before it tells the run. The cancel that follows finds the run
      RUNNING, no worker and no step marked RUNNING, and the run ends CANCELLED over a FAILED step. */
  lemma CancelOverLostFailure() returns (rest: seq<Op>)
    ensures var s := Interleave(OneShotEnv(), Begin(FirstStepDue()), BlameOps());
            && s.run.status.Running? && s.pcs == map[] && Saga.Idle(s.run)
            && Breaks(OneShotEnv(), Next(OneShotEnv(), s, CancelOp), rest)
  {
    BlamePlayed();
    var s := BlameStates()[8];
    rest := FailedRowBreaks(OneShotEnv(), Next(OneShotEnv(), s, CancelOp), 0);
  }

  /* ---- a save that puts RUNNING over a cancel ---- */

  function JustQueued(): RunRow {
    FirstStepDue().(status := RunStatus.Queued, startedAt := None)
  }

  function RevivedOps(): seq<Op> {
    [Load(1), Move(1, 0), Move(1, 0), Move(1, 0), CancelOp, Move(1, 0)]
  }

  function RevivedStates(): seq<State> {
    var run := JustQueued();
    var c := Claim(run.steps[0], StepStatus.Running, 0);
    var held := WithStep(run, 0, c);
    var cancelled := held.(status := RunStatus.Compensating, reason := ByCancel);
    [ Begin(run),
      State(run, map[1 := Loaded(run)], []),
      State(run, map[1 := HasRow(run)], []),
      State(held, map[1 := ClaimWon(run)], [Won(0)]),
      State(held, map[1 := Refreshed(run, c)], [Won(0)]),
      State(cancelled, map[1 := Refreshed(run, c)], [Won(0)]),
      State(cancelled.(status := RunStatus.Running, startedAt := Some(0)), map[1 := Ready(run, c)], [Won(0)]) ]
  }

  lemma RevivedPlays(k: nat)
    requires k < 6
    ensures Plays(TwoStepEnv(), RevivedStates(), RevivedOps(), k)
  {}

  /** A cancel lands between the first claim of a queued run and the save that marks it RUNNING: the save
      puts RUNNING over COMPENSATING, and the cancel is lost but for its reason. */
  lemma FirstClaimRevivesCancelled()
    ensures Interleave(TwoStepEnv(), Begin(JustQueued()), RevivedOps()[..5]).run.status.Compensating?
    ensures var run := Interleave(TwoStepEnv(), Begin(JustQueued()), RevivedOps()).run;
            run.status.Running? && run.reason.ByCancel?
  {
    forall k | 0 <= k < 6 ensures Plays(TwoStepEnv(), RevivedStates(), RevivedOps(), k) {
      RevivedPlays(k);
    }
    Played(TwoStepEnv(), RevivedStates(), RevivedOps(), 5);
    Played(TwoStepEnv(), RevivedStates(), RevivedOps(), 6);
    assert RevivedOps()[..6] == RevivedOps();
  }

  /* ---- a reclaim that takes a cancelled run out of its terminal status ---- */

  function AbandonedOps(): seq<Op> {
    [Load(1), Move(1, 0), Move(1, 0), Kill(1), CancelOp]
  }

  function AbandonedStates(): seq<State> {
    var run := FirstStepDue();
    var held := WithStep(run, 0, Claim(run.steps[0], StepStatus.Running, 0));
    [ Begin(run),
      State(run, map[1 := Loaded(run)], []),
      State(run, map[1 := HasRow(run)], []),
      State(held, map[1 := ClaimWon(run)], [Won(0)]),
      State(held, map[], [Won(0)]),
      State(held.(status := RunStatus.Compensating, reason := ByCancel), map[], [Won(0)]) ]
  }

  lemma AbandonedPlays(k: nat)
    requires k < 5
    ensures Plays(OneShotEnv(), AbandonedStates(), AbandonedOps(), k)
  {}

  lemma AbandonedPlayed()
    ensures Interleave(OneShotEnv(), Begin(FirstStepDue()), AbandonedOps()) == AbandonedStates()[5]
  {
    forall k | 0 <= k < 5 ensures Plays(OneShotEnv(), AbandonedStates(), AbandonedOps(), k) {
      AbandonedPlays(k);
    }
    Played(OneShotEnv(), AbandonedStates(), AbandonedOps(), 5);
    assert AbandonedOps()[..5] == AbandonedOps();
  }

  function ReclaimOps(): seq<Op> {
    [Scan(9, 0, 600), Move(9, 600), Move(9, 600)]
  }

  function LeftRow(): StepRow {
    Claim(FirstStepDue().steps[0], StepStatus.Running, 0)
  }

  lemma ScanSees(s: State)
    requires s.pcs == map[] && s.run.pipeline == "p" && s.run.steps == [LeftRow()]
    ensures Next(OneShotEnv(), s, Scan(9, 0, 600)) == s.(pcs := map[9 := SawStale(0, LeftRow(), false)])
  {
    assert Stale(OneShotEnv(), s.run, 0, 600);
    assert map[][9 := SawStale(0, LeftRow(), false)] == map[9 := SawStale(0, LeftRow(), false)];
  }

  lemma ReclaimTakes(s: State)
    requires s.pcs == map[9 := SawStale(0, LeftRow(), false)] && s.run.steps == [LeftRow()]
    ensures var t := Next(OneShotEnv(), s, Move(9, 600)); t.pcs == map[9 := Exhausting]
  {}

  lemma BlameTakes(s: State)
    requires s.pcs == map[9 := Exhausting]
    ensures var t := Next(OneShotEnv(), s, Move(9, 600)); t.run.status.Compensating? && t.run.reason.ByFailure?
  {}

  lemma ThreeOps(env: Env, s: State, a: Op, b: Op, c: Op)
    ensures Interleave(env, s, [a, b, c]) == Next(env, Next(env, Next(env, s, a), b), c)
  {
    OneOp(env, s, a);
    assert [a, b] == [a] + [b] && [a, b, c] == [a, b] + [c];
    Then(env, s, [a], b);
    Then(env, s, [a, b], c);
  }

  /** The reclaim of the step a dead worker left RUNNING, its attempts used up. */
  lemma ReclaimRevives(s: State)
    requires s.pcs == map[] && s.run.pipeline == "p" && s.run.steps == [LeftRow()]
    ensures var t := Interleave(OneShotEnv(), s, ReclaimOps());
            t.run.status.Compensating? && t.run.reason.ByFailure?
  {
    ThreeOps(OneShotEnv(), s, Scan(9, 0, 600), Move(9, 600), Move(9, 600));
    ScanSees(s);
    var s1 := s.(pcs := map[9 := SawStale(0, LeftRow(), false)]);
    ReclaimTakes(s1);
    BlameTakes(Next(OneShotEnv(), s1, Move(9, 600)));
  }

  /** A worker dies in the body of a step, the run is cancelled around it and ends CANCELLED; then a reclaim
      finds the step's attempts used up and puts the run back to COMPENSATING, for another reason. */
  lemma ReclaimRevivesCancelled() returns (unwind: seq<Op>)
    ensures Plain(unwind)
    ensures var s := Interleave(OneShotEnv(), Begin(FirstStepDue()), AbandonedOps() + unwind);
            var t := Interleave(OneShotEnv(), s, ReclaimOps());
            s.run.status.Cancelled? && t.run.status.Compensating? && t.run.reason.ByFailure?
  {
    AbandonedPlayed();
    unwind := Unwinds(OneShotEnv(), AbandonedStates()[5], 2);
    InSequence(OneShotEnv(), Begin(FirstStepDue()), AbandonedOps(), unwind);
    ReclaimRevives(Interleave(OneShotEnv(), AbandonedStates()[5], unwind));
  }

  /* ---- a worker that dies between the two saves of a success ---- */

  function HalfSavedOps(): seq<Op> {
    [Load(1), Move(1, 0), Move(1, 0), Move(1, 0), Move(1, 0), Move(1, 0), Move(1, 0), Kill(1)]
  }

  function HalfSavedStates(): seq<State> {
    var run := FirstStepDue();
    var c := Claim(run.steps[0], StepStatus.Running, 0);
    var held := WithStep(run, 0, c);
    var saved := WithStep(run, 0, c.(status := StepStatus.Success, lockedAt := None));
    var log := [Won(0), Ran(0, 1)];
    [ Begin(run),
      State(run, map[1 := Loaded(run)], []),
      State(run, map[1 := HasRow(run)], []),
      State(held, map[1 := ClaimWon(run)], [Won(0)]),
      State(held, map[1 := Refreshed(run, c)], [Won(0)]),
      State(held, map[1 := Ready(run, c)], [Won(0)]),
      State(held, map[1 := Succeeding(run, c, "")], log),
      State(saved, map[1 := StepSaved(run, c, "")], log + [SavedSuccess(0)]),
      State(saved, map[], log + [SavedSuccess(0)]) ]
  }

  lemma HalfSavedPlays(k: nat)
    requires k < 8
    ensures Plays(OneShotEnv(), HalfSavedStates(), HalfSavedOps(), k)
  {}

  lemma HalfSavedPlayed()
    ensures Interleave(OneShotEnv(), Begin(FirstStepDue()), HalfSavedOps()) == HalfSavedStates()[8]
  {
    forall k | 0 <= k < 8 ensures Plays(OneShotEnv(), HalfSavedStates(), HalfSavedOps(), k) {
      HalfSavedPlays(k);
    }
    Played(OneShotEnv(), HalfSavedStates(), HalfSavedOps(), 8);
    assert HalfSavedOps()[..8] == HalfSavedOps();
  }

  /** A worker saves its step SUCCESS and dies before it moves the index: from then on no ticks, reclaims,
      pauses or resumes ever end the run. */
  lemma HalfSavedNeverEnds(more: seq<Op>)
    requires forall k :: 0 <= k < |more| ==> !more[k].CancelOp?
    ensures !Terminal(Interleave(OneShotEnv(), Begin(FirstStepDue()), HalfSavedOps() + more).run.status)
  {
    HalfSavedPlayed();
    InSequence(OneShotEnv(), Begin(FirstStepDue()), HalfSavedOps(), more);
    Stalled.StuckForever(OneShotEnv(), HalfSavedStates()[8], more);
  }
}
