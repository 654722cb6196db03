/** A run whose worker died between the two saves of a success: the row at the index says SUCCESS and the
    index has not moved. Nothing short of a cancel ever gets it on. */
module Stalled {
  import opened Workflow
  import opened EngineSpec
  import opened Coherence
  import opened Workers
  import opened Cancelling
  import Solo

  /** The run is forward and not over, its current row says SUCCESS already, and no row says RUNNING. */
  ghost predicate Stuck(run: RunRow) {
    Forward(run.status) && HeadIs(run, StepStatus.Success) && NoneIs(run, StepStatus.Running)
  }

  /** A worker that can get nothing done on it: its copy points to a row that does not wait. */
  predicate Idles(s: State, pc: Pc) {
    match pc
    case Loaded(snap) =>
      !snap.status.Compensating? && snap.index < |s.run.steps| && !s.run.steps[snap.index].status.Pending?
    case HasRow(snap) => snap.index < |s.run.steps| && !s.run.steps[snap.index].status.Pending?
    case _ => pc.SawStale? || pc.Refreshing? || pc.Publishing?
  }

  ghost predicate AllIdle(s: State) {
    Stuck(s.run) && forall w :: w in s.pcs ==> Idles(s, s.pcs[w])
  }

  /** No operation but a cancel moves the run on, touches a row or leaves a worker with something to do. */
  lemma NextIdle(env: Env, s: State, op: Op)
    requires AllIdle(s) && !op.CancelOp?
    ensures var t := Next(env, s, op);
            AllIdle(t) && t.run.steps == s.run.steps && t.run.index == s.run.index
  {
    if op.Go? && op.w in s.pcs {
      assert Idles(s, s.pcs[op.w]);
      IdlerMoves(env, s, op);
    }
  }

  lemma IdlerMoves(env: Env, s: State, op: Op)
    requires Stuck(s.run) && op.Go? && op.w in s.pcs && Idles(s, s.pcs[op.w])
    ensures var t := Next(env, s, op);
            t.run == s.run && (t.pcs == s.pcs - {op.w} ||
                (t.pcs.Keys == s.pcs.Keys && t.pcs == s.pcs[op.w := t.pcs[op.w]])) &&
            (op.w in t.pcs ==> Idles(t, t.pcs[op.w]))
  {}

  /** However many workers tick, die or reclaim, pause or resume, and whatever the clock says: without a
      cancel the run never ends, its index never moves, and no step of it is ever run again. */
  lemma {:induction false} StuckForever(env: Env, s: State, ops: seq<Op>)
    requires AllIdle(s) && forall k :: 0 <= k < |ops| ==> !ops[k].CancelOp?
    ensures var t := Interleave(env, s, ops);
            AllIdle(t) && !Terminal(t.run.status) && t.run.steps == s.run.steps && t.run.index == s.run.index
    decreases |ops|
  {
    if ops != [] {
      StuckForever(env, s, ops[..|ops| - 1]);
      NextIdle(env, Interleave(env, s, ops[..|ops| - 1]), ops[|ops| - 1]);
    }
  }

  /** A cancel does get it on: one more worker can then unwind it to CANCELLED. */
  lemma CancelFrees(env: Env, s: State) returns (rest: seq<Op>)
    requires AllIdle(s)
    ensures Plain(rest) && Interleave(env, s, [CancelOp] + rest).run.status.Cancelled?
  {
    OneOp(env, s, CancelOp);
    var t := Next(env, s, CancelOp);
    var v := FreshWorker(t.pcs.Keys);
    rest := Unwinds(env, t, v);
    Solo.InSequence(env, s, [CancelOp], rest);
  }
}
