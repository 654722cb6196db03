/** The claim protocol: under any interleaving of fail-stop workers a step has at most one owner, its
    attempt counter counts the claims won on it, and no attempt number is executed twice. */
module Claims {
  import opened Wrappers
  import opened Workflow
  import opened EngineSpec
  import opened Workers

  /** The step this worker has claimed and not yet saved. */
  function Holds(pc: Pc): Option<nat> {
    match pc
    case ClaimWon(snap) => Some(snap.index)
    case Refreshed(snap, _) => Some(snap.index)
    case Ready(snap, _) => Some(snap.index)
    case Succeeding(snap, _, _) => Some(snap.index)
    case Failing(snap, _, _, _) => Some(snap.index)
    case UndoOwned(top) => Some(top)
    case UndoRan(top, _) => Some(top)
    case _ => None
  }

  predicate Undoing(pc: Pc) {
    pc.UndoOwned? || pc.UndoRan?
  }

  /** The body of the claimed step has not been started yet. */
  predicate BeforeBody(pc: Pc) {
    pc.ClaimWon? || pc.Refreshed? || pc.Ready?
  }

  predicate HasCopy(pc: Pc) {
    pc.Refreshed? || pc.Ready? || pc.Succeeding? || pc.Failing?
  }

  ghost predicate PcFits(s: State, pc: Pc) {
    Holds(pc).Some? ==>
      var i := Holds(pc).value;
      && i < |s.run.steps|
      && s.run.steps[i].status == (if Undoing(pc) then StepStatus.Compensating else StepStatus.Running)
      && (HasCopy(pc) ==> pc.row.attempt == s.run.steps[i].attempt)
  }

  ghost predicate HoldersFit(s: State) {
    forall w :: w in s.pcs ==> PcFits(s, s.pcs[w])
  }

  /** No two workers hold the same step. */
  ghost predicate SoleHolders(s: State) {
    forall v, w :: v in s.pcs && w in s.pcs && v != w && Holds(s.pcs[v]).Some? ==> Holds(s.pcs[v]) != Holds(s.pcs[w])
  }

  ghost predicate AttemptsCount(s: State) {
    forall i :: 0 <= i < |s.run.steps| ==>
      s.run.steps[i].attempt == Count(s.log, Won(i)) + Count(s.log, UndoWon(i))
  }

  ghost predicate RunsOnce(s: State, i: nat, a: nat)
    requires i < |s.run.steps|
  {
    && Count(s.log, Ran(i, a)) <= 1
    && (Count(s.log, Ran(i, a)) == 1 ==> a <= s.run.steps[i].attempt)
    && (Count(s.log, Ran(i, a)) == 1 && a == s.run.steps[i].attempt ==>
          forall w :: w in s.pcs && Holds(s.pcs[w]) == Some(i) ==> !BeforeBody(s.pcs[w]))
  }

  ghost predicate NoRerun(s: State) {
    forall i: nat, a: nat :: i < |s.run.steps| ==> RunsOnce(s, i, a)
  }

  /** The guarded update of a reclaim takes effect: the row is still as the reclaim saw it. */
  predicate Reclaims(s: State, op: Op) {
    && op.Go? && op.w in s.pcs && s.pcs[op.w].SawStale? && s.pcs[op.w].step < |s.run.steps|
    && s.run.steps[s.pcs[op.w].step].status.Running?
    && s.run.steps[s.pcs[op.w].step].lockedAt == s.pcs[op.w].seen.lockedAt
  }

  /** A reclaimed worker really is dead: when a reclaim takes a step, nobody alive holds it. */
  ghost predicate FailStop(s: State, op: Op) {
    Reclaims(s, op) ==> forall v :: v in s.pcs ==> Holds(s.pcs[v]) != Some(s.pcs[op.w].step)
  }

  ghost predicate FailStopRun(env: Env, s: State, ops: seq<Op>) {
    forall k :: 0 <= k < |ops| ==> FailStop(Interleave(env, s, ops[..k]), ops[k])
  }

  /* ---- what any one operation may do, said without its code ---- */

  function Worker(op: Op): Option<nat> {
    match op
    case Load(w) => Some(w)
    case Go(w, _, _, _) => Some(w)
    case Kill(w) => Some(w)
    case Scan(w, _, _) => Some(w)
    case AskRetry(w) => Some(w)
    case _ => None
  }

  function NewFact(s: State, t: State): Option<Fact> {
    if |t.log| > |s.log| then Some(t.log[|s.log|]) else None
  }

  ghost predicate LogStep(s: State, t: State) {
    if NewFact(s, t).Some? then t.log == s.log + [NewFact(s, t).value] else t.log == s.log
  }

  ghost predicate HeldBy(s: State, op: Op, i: nat, undoing: bool) {
    && Worker(op).Some? && Worker(op).value in s.pcs
    && Holds(s.pcs[Worker(op).value]) == Some(i) && Undoing(s.pcs[Worker(op).value]) == undoing
  }

  ghost predicate RowStep(s: State, op: Op, t: State, i: nat)
    requires i < |s.run.steps| && |t.run.steps| == |s.run.steps|
  {
    var a, b, f := s.run.steps[i], t.run.steps[i], NewFact(s, t);
    if f == Some(Won(i)) then a.status.Pending? && b.status.Running? && b.attempt == a.attempt + 1
    else if f == Some(UndoWon(i)) then a.status.Success? && b.status.Compensating? && b.attempt == a.attempt + 1
    else
      b.attempt == a.attempt &&
      (if f == Some(SavedSuccess(i)) then b.status.Success? && HeldBy(s, op, i, false)
       else
         || b.status == a.status
         || (HeldBy(s, op, i, false) && (b.status.Pending? || b.status.Failed?))
         || (HeldBy(s, op, i, true) && (b.status.Compensated? || b.status.CompensationFailed?))
         || (Reclaims(s, op) && s.pcs[op.w].step == i && (b.status.Pending? || b.status.Failed?))
         || (a.status.Pending? && b.status.Skipped?)
         || ((a.status.Failed? || a.status.Skipped?) && b.status.Pending?))
  }

  ghost predicate OthersStay(s: State, op: Op, t: State) {
    forall v :: Some(v) != Worker(op) ==> (v in t.pcs <==> v in s.pcs) && (v in s.pcs ==> t.pcs[v] == s.pcs[v])
  }

  /** The acting worker's new position: it holds what it held, untouched, or what it just won. */
  ghost predicate OwnStep(s: State, op: Op, t: State, w: nat) {
    w in t.pcs && Holds(t.pcs[w]).Some? ==>
      var i := Holds(t.pcs[w]).value;
      var q := t.pcs[w];
      && (NewFact(s, t) == Some(if Undoing(q) then UndoWon(i) else Won(i)) || HeldBy(s, op, i, Undoing(q)))
      && (i < |s.run.steps| == |t.run.steps| ==>
            && (HeldBy(s, op, i, Undoing(q)) ==> t.run.steps[i] == s.run.steps[i])
            && (HasCopy(q) ==> q.row.attempt == t.run.steps[i].attempt ||
                               (w in s.pcs && HasCopy(s.pcs[w]) && Holds(s.pcs[w]) == Some(i) &&
                                   q.row == s.pcs[w].row)))
      && (BeforeBody(q) ==>
          NewFact(s, t) == Some(Won(i)) || (w in s.pcs && Holds(s.pcs[w]) == Some(i) && BeforeBody(s.pcs[w])))
  }

  ghost predicate RanStep(s: State, op: Op, t: State) {
    match NewFact(s, t)
    case Some(Ran(i, a)) =>
      op.Go? && op.w in s.pcs && s.pcs[op.w].Ready? && Holds(s.pcs[op.w]) == Some(i) && a == s.pcs[op.w].row.attempt &&
      (op.w in t.pcs ==> !BeforeBody(t.pcs[op.w])) && t.run.steps == s.run.steps
    case _ => true
  }

  ghost predicate Lawful(s: State, op: Op, t: State) {
    && |t.run.steps| == |s.run.steps|
    && LogStep(s, t)
    && (forall i: nat :: NewFact(s, t) == Some(Won(i)) || NewFact(s, t) == Some(UndoWon(i)) ==> i < |s.run.steps|)
    && (forall i :: 0 <= i < |s.run.steps| ==> RowStep(s, op, t, i))
    && OthersStay(s, op, t)
    && (Worker(op).Some? ==> OwnStep(s, op, t, Worker(op).value))
    && RanStep(s, op, t)
  }

  lemma LoadLawful(env: Env, s: State, op: Op)
    requires op.Go? && op.w in s.pcs && (s.pcs[op.w].Loaded? || s.pcs[op.w].HasRow?)
    ensures Lawful(s, op, Next(env, s, op))
  {}

  lemma ClaimLawful(env: Env, s: State, op: Op)
    requires op.Go? && op.w in s.pcs && (s.pcs[op.w].ClaimWon? || s.pcs[op.w].Refreshed?)
    ensures Lawful(s, op, Next(env, s, op))
  {}

  lemma BodyLawful(env: Env, s: State, op: Op)
    requires op.Go? && op.w in s.pcs && (s.pcs[op.w].Ready?)
    ensures Lawful(s, op, Next(env, s, op))
  {}

  lemma SaveLawful(env: Env, s: State, op: Op)
    requires op.Go? && op.w in s.pcs && (s.pcs[op.w].Succeeding? || s.pcs[op.w].Failing?)
    ensures Lawful(s, op, Next(env, s, op))
  {}

  lemma ReclaimLawful(env: Env, s: State, op: Op)
    requires op.Go? && op.w in s.pcs && (s.pcs[op.w].SawStale?)
    ensures Lawful(s, op, Next(env, s, op))
  {}

  lemma RunSaveLawful(env: Env, s: State, op: Op)
    requires op.Go? && op.w in s.pcs && (s.pcs[op.w].StepSaved? || s.pcs[op.w].FailureSaved? || s.pcs[op.w].Exhausting?)
    ensures Lawful(s, op, Next(env, s, op))
  {}

  lemma UndoLawful(env: Env, s: State, op: Op)
    requires op.Go? && op.w in s.pcs && (s.pcs[op.w].HasTop? || s.pcs[op.w].UndoOwned? || s.pcs[op.w].UndoRan?)
    ensures Lawful(s, op, Next(env, s, op))
  {}

  lemma FinishLawful(env: Env, s: State, op: Op)
    requires op.Go? && op.w in s.pcs &&
        (s.pcs[op.w].Skipping? || s.pcs[op.w].Finishing? || s.pcs[op.w].Refreshing? || s.pcs[op.w].Publishing?)
    ensures Lawful(s, op, Next(env, s, op))
  {}

  lemma RetryLawful(env: Env, s: State, op: Op)
    requires op.Go? && op.w in s.pcs && (s.pcs[op.w].WantsRetry? || s.pcs[op.w].Rearmed?)
    ensures Lawful(s, op, Next(env, s, op))
  {}

  lemma NextLawful(env: Env, s: State, op: Op)
    ensures Lawful(s, op, Next(env, s, op))
  {
    if op.Go? && op.w in s.pcs {
      match s.pcs[op.w]
      case Loaded(_) | HasRow(_) => LoadLawful(env, s, op);
      case ClaimWon(_) | Refreshed(_, _) => ClaimLawful(env, s, op);
      case Ready(_, _) => BodyLawful(env, s, op);
      case Succeeding(_, _, _) | Failing(_, _, _, _) => SaveLawful(env, s, op);
      case SawStale(_, _, _) => ReclaimLawful(env, s, op);
      case StepSaved(_, _, _) | FailureSaved | Exhausting => RunSaveLawful(env, s, op);
      case HasTop(_) | UndoOwned(_) | UndoRan(_, _) => UndoLawful(env, s, op);
      case WantsRetry | Rearmed => RetryLawful(env, s, op);
      case _ => FinishLawful(env, s, op);
    }
  }

  /* ---- the protocol ---- */

  lemma AttemptsKept(s: State, op: Op, t: State)
    requires Lawful(s, op, t) && AttemptsCount(s)
    ensures AttemptsCount(t)
  {
    forall i | 0 <= i < |t.run.steps|
      ensures t.run.steps[i].attempt == Count(t.log, Won(i)) + Count(t.log, UndoWon(i))
    {
      assert RowStep(s, op, t, i);
      if NewFact(s, t).Some? {
        CountNote(s.log, NewFact(s, t).value, Won(i));
        CountNote(s.log, NewFact(s, t).value, UndoWon(i));
      }
    }
  }

  lemma HolderKept(s: State, op: Op, t: State, v: nat)
    requires Lawful(s, op, t) && HoldersFit(s) && SoleHolders(s) && FailStop(s, op) && v in t.pcs
    ensures PcFits(t, t.pcs[v])
  {
    if Holds(t.pcs[v]).Some? {
      var i := Holds(t.pcs[v]).value;
      assert v in s.pcs ==> PcFits(s, s.pcs[v]);
      if Some(v) == Worker(op) {
        assert OwnStep(s, op, t, v);
        assert RowStep(s, op, t, i);
      } else {
        assert Holds(s.pcs[v]) == Some(i);
        assert RowStep(s, op, t, i);
        assert !HeldBy(s, op, i, true) && !HeldBy(s, op, i, false);
      }
    }
  }

  lemma HoldersKept(s: State, op: Op, t: State)
    requires Lawful(s, op, t) && HoldersFit(s) && SoleHolders(s) && FailStop(s, op)
    ensures HoldersFit(t) && SoleHolders(t)
  {
    forall v | v in t.pcs ensures PcFits(t, t.pcs[v]) {
      HolderKept(s, op, t, v);
    }
    forall v, w | v in t.pcs && w in t.pcs && v != w && Holds(t.pcs[v]).Some?
      ensures Holds(t.pcs[v]) != Holds(t.pcs[w])
    {
      var i := Holds(t.pcs[v]).value;
      assert i < |s.run.steps| ==> RowStep(s, op, t, i);
      assert v in s.pcs ==> PcFits(s, s.pcs[v]);
      assert w in s.pcs ==> PcFits(s, s.pcs[w]);
    }
  }

  lemma RunsKept(s: State, op: Op, t: State, i: nat, a: nat)
    requires Lawful(s, op, t) && HoldersFit(s) && SoleHolders(s) && NoRerun(s) && i < |s.run.steps|
    ensures RunsOnce(t, i, a)
  {
    assert RunsOnce(s, i, a) && RowStep(s, op, t, i);
    var f := NewFact(s, t);
    if f.Some? { CountNote(s.log, f.value, Ran(i, a)); }
    if f == Some(Ran(i, a)) {
      assert PcFits(s, s.pcs[op.w]);
    }
    forall w | w in t.pcs && Holds(t.pcs[w]) == Some(i) && Count(t.log, Ran(i, a)) == 1 && a == t.run.steps[i].attempt
      ensures !BeforeBody(t.pcs[w])
    {
      assert w in s.pcs ==> PcFits(s, s.pcs[w]);
      if Some(w) == Worker(op) { assert OwnStep(s, op, t, w); }
    }
  }

  ghost predicate Protocol(s: State) {
    AttemptsCount(s) && HoldersFit(s) && SoleHolders(s) && NoRerun(s)
  }

  lemma ProtocolKept(env: Env, s: State, op: Op)
    requires Protocol(s) && FailStop(s, op)
    ensures Protocol(Next(env, s, op))
  {
    var t := Next(env, s, op);
    NextLawful(env, s, op);
    AttemptsKept(s, op, t);
    HoldersKept(s, op, t);
    forall i: nat, a: nat | i < |t.run.steps| ensures RunsOnce(t, i, a) {
      RunsKept(s, op, t, i, a);
    }
  }

  function Begin(run: RunRow): State {
    State(run, map[], [])
  }

  lemma FailStopPrefix(env: Env, s: State, ops: seq<Op>)
    requires ops != [] && FailStopRun(env, s, ops)
    ensures FailStopRun(env, s, ops[..|ops| - 1])
    ensures FailStop(Interleave(env, s, ops[..|ops| - 1]), ops[|ops| - 1])
  {
    var most := ops[..|ops| - 1];
    forall k | 0 <= k < |most| ensures FailStop(Interleave(env, s, most[..k]), most[k]) {
      assert most[..k] == ops[..k];
    }
  }

  lemma {:induction false} ProtocolAlways(env: Env, s: State, ops: seq<Op>)
    requires Protocol(s) && FailStopRun(env, s, ops)
    ensures Protocol(Interleave(env, s, ops))
    decreases |ops|
  {
    if ops != [] {
      FailStopPrefix(env, s, ops);
      ProtocolAlways(env, s, ops[..|ops| - 1]);
      ProtocolKept(env, Interleave(env, s, ops[..|ops| - 1]), ops[|ops| - 1]);
    }
  }

  /** From a fresh run, after any interleaving of any number of fail-stop workers: the attempt counter of
      each step is the number of claims won on it; two workers never hold one step, and a worker that
      holds a step finds it RUNNING (or COMPENSATING) under the attempt it claimed; and no attempt
      number of a step is executed twice. */
  lemma ClaimProtocol(env: Env, tenant: string, pipeline: string, key: string, input: map<string, Json>, now: Time,
                      ops: seq<Op>)
    requires FailStopRun(env, Begin(FreshRun(env, tenant, pipeline, key, input, now)), ops)
    ensures Protocol(Interleave(env, Begin(FreshRun(env, tenant, pipeline, key, input, now)), ops))
  {
    ProtocolAlways(env, Begin(FreshRun(env, tenant, pipeline, key, input, now)), ops);
  }
}
