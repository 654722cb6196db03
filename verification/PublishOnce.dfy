/** Terminal events under racing finishers: one event per active-to-terminal transition, the one mapped
    to the status written, and none lost unless its worker dies between the write and the publish. */
module PublishOnce {
  import opened Wrappers
  import opened Workflow
  import opened Workers
  import opened Claims

  /** Workers that have finished the run with this status and not yet announced it. */
  function WaitingIn(pcs: map<nat, Pc>, status: RunStatus): set<nat> {
    set w | w in pcs && Announcing(pcs[w]) && pcs[w].status == status
  }

  function Waiting(s: State, status: RunStatus): set<nat> {
    WaitingIn(s.pcs, status)
  }

  ghost predicate Tallied(s: State, status: RunStatus) {
    && Count(s.log, FinishWon(status)) ==
       Count(s.log, Announced(status, EventFor(status))) + Count(s.log, Lost(status)) + |Waiting(s, status)|
    && forall e :: e != EventFor(status) ==> Count(s.log, Announced(status, e)) == 0
  }

  ghost predicate FinishersFit(s: State) {
    forall w :: w in s.pcs && s.pcs[w].Finishing? ==> Terminal(s.pcs[w].status)
  }

  /** What one operation may do to the announcements. */
  ghost predicate Announces(s: State, op: Op, t: State) {
    match NewFact(s, t)
    case Some(FinishWon(st)) =>
      op.Go? && op.w in s.pcs && s.pcs[op.w] == Finishing(st) && t.pcs == s.pcs[op.w := Refreshing(st)]
    case Some(Announced(st, e)) =>
      e == EventFor(st) && op.Go? && op.w in s.pcs && s.pcs[op.w] == Publishing(st) && t.pcs == s.pcs - {op.w}
    case Some(Lost(st)) =>
      op.Kill? && op.w in s.pcs && Announcing(s.pcs[op.w]) && s.pcs[op.w].status == st && t.pcs == s.pcs - {op.w}
    case _ =>
      forall w :: (w in t.pcs && Announcing(t.pcs[w]) <==> w in s.pcs && Announcing(s.pcs[w])) &&
                  (w in s.pcs && w in t.pcs && Announcing(s.pcs[w]) ==> t.pcs[w].status == s.pcs[w].status)
  }

  lemma QuietOpAnnounces(env: Env, s: State, op: Op)
    requires op.Go? && op.w in s.pcs && !Announcing(s.pcs[op.w]) && !s.pcs[op.w].Finishing?
    ensures Announces(s, op, Next(env, s, op))
  {
    var t := Next(env, s, op);
    QuietFact(env, s, op);
    assert forall v :: v != op.w ==> (v in t.pcs <==> v in s.pcs) && (v in s.pcs ==> t.pcs[v] == s.pcs[v]);
  }

  lemma QuietFact(env: Env, s: State, op: Op)
    requires op.Go? && op.w in s.pcs && !Announcing(s.pcs[op.w]) && !s.pcs[op.w].Finishing?
    ensures var t := Next(env, s, op);
            && (op.w in t.pcs ==> !Announcing(t.pcs[op.w]))
            && (t.pcs == s.pcs - {op.w} || (op.w in t.pcs && t.pcs == s.pcs[op.w := t.pcs[op.w]]))
            && (NewFact(s, t).Some? ==>
                  !NewFact(s, t).value.FinishWon? && !NewFact(s, t).value.Announced? && !NewFact(s, t).value.Lost?)
  {
    match s.pcs[op.w]
    case Loaded(_) | HasRow(_) | ClaimWon(_) | Refreshed(_, _) =>
    case Ready(_, _) =>
    case Succeeding(_, _, _) | Failing(_, _, _, _) | SawStale(_, _, _) =>
    case HasTop(_) | UndoOwned(_) | UndoRan(_, _) =>
    case _ =>
  }

  lemma NextAnnounces(env: Env, s: State, op: Op)
    ensures Announces(s, op, Next(env, s, op))
  {
    if op.Go? && op.w in s.pcs && !Announcing(s.pcs[op.w]) && !s.pcs[op.w].Finishing? {
      QuietOpAnnounces(env, s, op);
    }
  }

  lemma WaiterJoins(pcs: map<nat, Pc>, w: nat, st: RunStatus, status: RunStatus)
    requires w in pcs && pcs[w] == Finishing(st)
    ensures |WaitingIn(pcs[w := Refreshing(st)], status)| == |WaitingIn(pcs, status)| + if st == status then 1 else 0
  {
    var more := pcs[w := Refreshing(st)];
    if st == status {
      assert WaitingIn(more, status) == WaitingIn(pcs, status) + {w};
    } else {
      assert WaitingIn(more, status) == WaitingIn(pcs, status);
    }
  }

  lemma WaiterLeaves(pcs: map<nat, Pc>, w: nat, status: RunStatus)
    requires w in pcs && Announcing(pcs[w])
    ensures |WaitingIn(pcs - {w}, status)| == |WaitingIn(pcs, status)| - if pcs[w].status == status then 1 else 0
  {
    if pcs[w].status == status {
      assert WaitingIn(pcs - {w}, status) == WaitingIn(pcs, status) - {w};
    } else {
      assert WaitingIn(pcs - {w}, status) == WaitingIn(pcs, status);
    }
  }

  lemma WaitersStay(pcs: map<nat, Pc>, more: map<nat, Pc>, status: RunStatus)
    requires forall w :: (w in more && Announcing(more[w]) <==> w in pcs && Announcing(pcs[w])) &&
                         (w in pcs && w in more && Announcing(pcs[w]) ==> more[w].status == pcs[w].status)
    ensures WaitingIn(more, status) == WaitingIn(pcs, status)
  {}

  /** The change in the number of waiting workers that a fact stands for. */
  function WaitingDelta(f: Option<Fact>, status: RunStatus): int {
    match f
    case Some(FinishWon(st)) => if st == status then 1 else 0
    case Some(Announced(st, _)) => if st == status then -1 else 0
    case Some(Lost(st)) => if st == status then -1 else 0
    case _ => 0
  }

  lemma WaitingMoves(s: State, op: Op, t: State, status: RunStatus)
    requires Announces(s, op, t)
    ensures |Waiting(t, status)| == |Waiting(s, status)| + WaitingDelta(NewFact(s, t), status)
  {
    match NewFact(s, t)
    case Some(FinishWon(st)) => WaiterJoins(s.pcs, op.w, st, status);
    case Some(Announced(st, _)) => WaiterLeaves(s.pcs, op.w, status);
    case Some(Lost(st)) => WaiterLeaves(s.pcs, op.w, status);
    case _ => WaitersStay(s.pcs, t.pcs, status);
  }

  lemma NoteCounts(log: seq<Fact>, f: Fact, status: RunStatus)
    requires f.Announced? ==> f.event == EventFor(f.status)
    ensures Count(log + [f], FinishWon(status)) ==
              Count(log, FinishWon(status)) + if f == FinishWon(status) then 1 else 0
    ensures Count(log + [f], Lost(status)) == Count(log, Lost(status)) + if f == Lost(status) then 1 else 0
    ensures forall e :: Count(log + [f], Announced(status, e)) ==
              Count(log, Announced(status, e)) +
              if f.Announced? && f.status == status && e == EventFor(status) then 1 else 0
  {
    CountNote(log, f, FinishWon(status));
    CountNote(log, f, Lost(status));
    forall e
      ensures Count(log + [f], Announced(status, e)) ==
                Count(log, Announced(status, e)) +
                if f.Announced? && f.status == status && e == EventFor(status) then 1 else 0
    {
      CountNote(log, f, Announced(status, e));
    }
  }

  lemma TallyKept(s: State, op: Op, t: State, status: RunStatus)
    requires LogStep(s, t) && Announces(s, op, t) && Tallied(s, status)
    ensures Tallied(t, status)
  {
    WaitingMoves(s, op, t, status);
    if NewFact(s, t).Some? {
      NoteCounts(s.log, NewFact(s, t).value, status);
    }
  }

  lemma FinishersStayFit(env: Env, s: State, op: Op)
    requires FinishersFit(s)
    ensures FinishersFit(Next(env, s, op))
  {
    if op.Go? && op.w in s.pcs {
      match s.pcs[op.w]
      case Loaded(_) | HasRow(_) | ClaimWon(_) | Refreshed(_, _) | Ready(_, _) =>
      case Succeeding(_, _, _) | Failing(_, _, _, _) | SawStale(_, _, _) =>
      case HasTop(_) | UndoOwned(_) | UndoRan(_, _) =>
      case _ =>
    }
  }

  /** The run turns terminal exactly when a finisher's guarded update takes effect. */
  lemma FinishersKept(env: Env, s: State, op: Op)
    requires FinishersFit(s)
    ensures var t := Next(env, s, op);
            !Terminal(s.run.status) && Terminal(t.run.status) <==> NewFact(s, t) == Some(FinishWon(t.run.status))
  {
    if op.Go? && op.w in s.pcs {
      match s.pcs[op.w]
      case Loaded(_) | HasRow(_) | ClaimWon(_) | Refreshed(_, _) | Ready(_, _) =>
      case Succeeding(_, _, _) | Failing(_, _, _, _) | SawStale(_, _, _) =>
      case HasTop(_) | UndoOwned(_) | UndoRan(_, _) =>
      case _ =>
    }
  }

  /** Active-to-terminal transitions into the given status over a whole interleaving, counted on the run
      row itself. */
  function Transitions(env: Env, s: State, ops: seq<Op>, status: RunStatus): nat
    decreases |ops|
  {
    if ops == [] then 0
    else
      var before := Interleave(env, s, ops[..|ops| - 1]);
      var after := Next(env, before, ops[|ops| - 1]);
      Transitions(env, s, ops[..|ops| - 1], status) +
      if !Terminal(before.run.status) && Terminal(after.run.status) && after.run.status == status then 1 else 0
  }

  /** For any number of racing finishers: the terminal events published for a status, plus those whose
      publisher died or has yet to publish, are as many as the run's transitions into that status, and
      no other event is ever published for it. */
  lemma {:induction false} PublishedOncePerTransition(env: Env, run: RunRow, ops: seq<Op>, status: RunStatus)
    requires Terminal(status)
    ensures var s := Interleave(env, Begin(run), ops);
            && Tallied(s, status) && FinishersFit(s)
            && Transitions(env, Begin(run), ops, status) ==
               Count(s.log, Announced(status, EventFor(status))) + Count(s.log, Lost(status)) + |Waiting(s, status)|
    decreases |ops|
  {
    if ops == [] {
      assert Waiting(Begin(run), status) == {};
    } else {
      PublishedOncePerTransition(env, run, ops[..|ops| - 1], status);
      TransitionTallied(env, Interleave(env, Begin(run), ops[..|ops| - 1]), ops[|ops| - 1], status);
    }
  }

  lemma TransitionCounted(s: State, t: State, status: RunStatus)
    requires LogStep(s, t)
    requires !Terminal(s.run.status) && Terminal(t.run.status) <==> NewFact(s, t) == Some(FinishWon(t.run.status))
    requires forall st :: NewFact(s, t) == Some(FinishWon(st)) ==> t.run.status == st
    requires Terminal(status)
    ensures Count(t.log, FinishWon(status)) == Count(s.log, FinishWon(status)) +
            if !Terminal(s.run.status) && Terminal(t.run.status) && t.run.status == status then 1 else 0
  {
    if NewFact(s, t).Some? {
      CountNote(s.log, NewFact(s, t).value, FinishWon(status));
    }
  }

  lemma WinnerWrites(env: Env, s: State, op: Op, st: RunStatus)
    requires NewFact(s, Next(env, s, op)) == Some(FinishWon(st))
    ensures Next(env, s, op).run.status == st
  {
    NextAnnounces(env, s, op);
  }

  lemma TransitionTallied(env: Env, s: State, op: Op, status: RunStatus)
    requires Terminal(status) && Tallied(s, status) && FinishersFit(s)
    ensures var t := Next(env, s, op);
            && Tallied(t, status) && FinishersFit(t)
            && Count(t.log, FinishWon(status)) == Count(s.log, FinishWon(status)) +
               if !Terminal(s.run.status) && Terminal(t.run.status) && t.run.status == status then 1 else 0
  {
    var t := Next(env, s, op);
    NextLawful(env, s, op);
    NextAnnounces(env, s, op);
    FinishersStayFit(env, s, op);
    FinishersKept(env, s, op);
    TallyKept(s, op, t, status);
    forall st | NewFact(s, t) == Some(FinishWon(st)) ensures t.run.status == st {
      WinnerWrites(env, s, op, st);
    }
    TransitionCounted(s, t, status);
  }
}
