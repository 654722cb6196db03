/** Scheduled rules on top of the engine (platform/automation): loading due rules, firing them under an
    idempotency key, and advancing the schedule when a pipeline finishes. Overlapping cron invocations,
    run-now clicks, retries and deletions interleave freely; no rule is edited. */
module Scheduling {
  import opened Wrappers
  import opened Calendar

  datatype Rule = Rule(
    cadence: Cadence, active: bool, next: Option<Moment>, last: Option<Moment>, stub: bool, deleted: bool)

  /** A pipeline run as the scheduler sees it; its key is the due tick it was fired for, if any. */
  datatype Firing = Firing(rule: nat, key: Option<Moment>, queuedAt: Moment, finishedAt: Option<Moment>, open: bool)

  datatype Record = Record(firing: nat, succeeded: bool, finished: Moment)

  /** A rule row as one cron invocation read it; its own copy of next_run_at does not change. */
  datatype Snapshot = Snapshot(rule: nat, due: Moment)

  datatype Book = Book(clock: Moment, rules: seq<Rule>, firings: seq<Firing>, snaps: map<nat, Snapshot>,
                       records: seq<Record>)

  datatype RunError = StubDestination | NoSuchRule | PastDeadline

  predicate Due(rule: Rule, now: Moment)
    requires Valid(now) && (rule.next.Some? ==> Valid(rule.next.value))
  {
    rule.active && !rule.deleted && !rule.stub && rule.next.Some? && Instant(rule.next.value) <= Instant(now)
  }

  predicate KeyTaken(firings: seq<Firing>, rule: nat, tick: Moment) {
    exists f :: 0 <= f < |firings| && firings[f].rule == rule && firings[f].key == Some(tick)
  }

  /** The pipeline run of a due tick: created once, found ever after. */
  function Fire(firings: seq<Firing>, rule: nat, key: Option<Moment>, now: Moment): seq<Firing> {
    if key.Some? && KeyTaken(firings, rule, key.value) then firings
    else firings + [Firing(rule, key, now, None, true)]
  }

  /** _advance_schedule; a date past the calendar raises, and the bus swallows it. */
  function AdvanceRule(rule: Rule, finished: Moment): Rule {
    match Advance(rule.cadence, finished)
    case Err(_) => rule
    case Ok(next) =>
      rule.(last := Some(finished), next := next, active := if rule.cadence.Once? then false else rule.active)
  }

  function Finish(b: Book, f: nat, succeeded: bool): Book
    requires f < |b.firings|
  {
    var firing := b.firings[f];
    if !firing.open then b
    else
      var done := b.(firings := b.firings[f := firing.(finishedAt := Some(b.clock), open := false)]);
      if firing.rule >= |b.rules| || b.rules[firing.rule].deleted then done
      else
        done.(records := b.records + [Record(f, succeeded, b.clock)],
              rules := b.rules[firing.rule := AdvanceRule(b.rules[firing.rule], b.clock)])
  }

  datatype Op =
    | Wait(to: Moment)
    | LoadDue(cron: nat, rule: nat)
    | FireLoaded(cron: nat)
    | RunNow(rule: nat)
    | FinishRun(firing: nat, succeeded: bool)
    | Reopen(firing: nat)
    | DeleteRule(rule: nat)

  predicate RulesValid(rules: seq<Rule>) {
    forall r :: 0 <= r < |rules| ==> (rules[r].next.Some? ==> Valid(rules[r].next.value))
  }

  /** The last year of the calendar, whose end no advance can pass, is out of reach of the clock. */
  predicate ClockFits(t: Moment) {
    Valid(t) && t.date.year < MAX_YEAR
  }

  function Apply(b: Book, op: Op): Book
    requires ClockFits(b.clock) && RulesValid(b.rules)
  {
    match op
    case Wait(to) => if ClockFits(to) && Instant(to) >= Instant(b.clock) then b.(clock := to) else b
    case LoadDue(cron, r) =>
      if r < |b.rules| && Due(b.rules[r], b.clock) then
        b.(snaps := b.snaps[cron := Snapshot(r, b.rules[r].next.value)])
      else b
    case FireLoaded(cron) =>
      if cron in b.snaps then
        b.(firings := Fire(b.firings, b.snaps[cron].rule, Some(b.snaps[cron].due), b.clock), snaps := b.snaps - {cron})
      else b
    case RunNow(r) =>
      if r < |b.rules| && !b.rules[r].deleted && !b.rules[r].stub then
        b.(firings := Fire(b.firings, r, None, b.clock))
      else b
    case FinishRun(f, succeeded) => if f < |b.firings| then Finish(b, f, succeeded) else b
    case Reopen(f) =>
      if f < |b.firings| && b.firings[f].finishedAt.Some? then
        b.(firings := b.firings[f := b.firings[f].(open := true)])
      else b
    case DeleteRule(r) => if r < |b.rules| then b.(rules := b.rules[r := b.rules[r].(deleted := true)]) else b
  }

  /* ---- the invariant ---- */

  ghost predicate KeysUnique(firings: seq<Firing>) {
    forall f, g :: 0 <= f < g < |firings| && firings[f].key.Some? && firings[f].rule == firings[g].rule ==>
      firings[f].key != firings[g].key
  }

  /** A firing was queued no earlier than the tick it is for, and finished no earlier than it was queued. */
  ghost predicate InTime(f: Firing, clock: Moment)
    requires Valid(clock)
  {
    && Valid(f.queuedAt) && Instant(f.queuedAt) <= Instant(clock)
    && (f.key.Some? ==> Valid(f.key.value) && Instant(f.key.value) <= Instant(f.queuedAt))
    && (f.finishedAt.Some? ==> Valid(f.finishedAt.value) &&
                               Instant(f.queuedAt) <= Instant(f.finishedAt.value) <= Instant(clock))
    && (f.finishedAt.None? ==> f.open)
  }

  /** The rule's schedule lies beyond this finish, and a one-off rule is off. */
  ghost predicate Beyond(rule: Rule, finished: Moment)
    requires Valid(finished)
  {
    && (rule.next.Some? ==> Valid(rule.next.value) && Instant(rule.next.value) > Instant(finished))
    && (rule.cadence.Once? ==> !rule.active && rule.next.None?)
  }

  ghost predicate Sound(b: Book) {
    && ClockFits(b.clock)
    && RulesValid(b.rules)
    && KeysUnique(b.firings)
    && (forall f :: 0 <= f < |b.firings| ==> b.firings[f].rule < |b.rules| && InTime(b.firings[f], b.clock))
    && (forall f :: 0 <= f < |b.firings| && b.firings[f].finishedAt.Some? && !b.rules[b.firings[f].rule].deleted ==>
          Beyond(b.rules[b.firings[f].rule], b.firings[f].finishedAt.value))
    && (forall c :: c in b.snaps ==>
          b.snaps[c].rule < |b.rules| && Valid(b.snaps[c].due) && Instant(b.snaps[c].due) <= Instant(b.clock))
  }

  lemma FireKeeps(firings: seq<Firing>, rule: nat, key: Option<Moment>, now: Moment)
    requires KeysUnique(firings)
    ensures KeysUnique(Fire(firings, rule, key, now))
  {
    forall f | 0 <= f < |firings| && firings[f].rule == rule && firings[f].key == key && key.Some?
      ensures KeyTaken(firings, rule, key.value)
    {}
  }

  lemma AdvancedIsBeyond(rule: Rule, finished: Moment, earlier: Moment)
    requires ClockFits(finished) && Valid(earlier) && Instant(earlier) <= Instant(finished)
    ensures Beyond(AdvanceRule(rule, finished), earlier)
  {
    AdvanceMovesOn(rule.cadence, finished);
  }

  lemma FinishKeeps(b: Book, f: nat, succeeded: bool)
    requires Sound(b) && f < |b.firings|
    ensures Sound(Finish(b, f, succeeded))
  {
    var t := Finish(b, f, succeeded);
    if b.firings[f].open {
      var r := b.firings[f].rule;
      assert InTime(b.firings[f], b.clock);
      if !b.rules[r].deleted {
        AdvancedIsBeyond(b.rules[r], b.clock, b.clock);
      }
      forall g | 0 <= g < |t.firings| && t.firings[g].finishedAt.Some? && !t.rules[t.firings[g].rule].deleted
        ensures Beyond(t.rules[t.firings[g].rule], t.firings[g].finishedAt.value)
      {
        assert InTime(b.firings[g], b.clock);
        if t.firings[g].rule == r {
          AdvancedIsBeyond(b.rules[r], b.clock, t.firings[g].finishedAt.value);
        }
      }
    }
  }

  lemma ApplyKeeps(b: Book, op: Op)
    requires Sound(b)
    ensures Sound(Apply(b, op))
  {
    match op
    case FinishRun(f, succeeded) => if f < |b.firings| { FinishKeeps(b, f, succeeded); }
    case FireLoaded(c) =>
      if c in b.snaps { FireKeeps(b.firings, b.snaps[c].rule, Some(b.snaps[c].due), b.clock); }
    case RunNow(r) => FireKeeps(b.firings, r, None, b.clock);
    case Wait(to) => WaitKeeps(b, to);
    case Reopen(f) => ReopenKeeps(b, f);
    case _ =>
  }

  lemma WaitKeeps(b: Book, to: Moment)
    requires Sound(b)
    ensures Sound(Apply(b, Wait(to)))
  {
    if ClockFits(to) && Instant(to) >= Instant(b.clock) {
      forall f | 0 <= f < |b.firings| ensures InTime(b.firings[f], to) {
        assert InTime(b.firings[f], b.clock);
      }
    }
  }

  lemma ReopenKeeps(b: Book, f: nat)
    requires Sound(b)
    ensures Sound(Apply(b, Reopen(f)))
  {
    assert f < |b.firings| ==> InTime(b.firings[f], b.clock);
  }

  /** The book after a whole history; every one that can be reached is sound. */
  function After(b: Book, ops: seq<Op>): (r: Book)
    requires Sound(b)
    ensures Sound(r)
    decreases |ops|
  {
    if ops == [] then b
    else
      var before := After(b, ops[..|ops| - 1]);
      ApplyKeeps(before, ops[|ops| - 1]);
      Apply(before, ops[|ops| - 1])
  }

  /** The starting book: rules of any schedule, nothing fired yet. */
  ghost predicate Untouched(b: Book) {
    ClockFits(b.clock) && RulesValid(b.rules) && b.firings == [] && b.snaps == map[] && b.records == []
  }

  ghost predicate SameTick(firings: seq<Firing>, f: nat, g: nat) {
    f < |firings| && g < |firings| && firings[f].key.Some? &&
    firings[f].rule == firings[g].rule && firings[f].key == firings[g].key
  }

  /** However crons, clicks, retries and deletions interleave, one due tick of a rule has at most one
      pipeline run. */
  lemma TickFiresOnce(b: Book, ops: seq<Op>)
    requires Untouched(b)
    ensures forall f: nat, g: nat :: SameTick(After(b, ops).firings, f, g) ==> f == g
  {
    assert KeysUnique(After(b, ops).firings);
  }

  /** If the rule of this finished firing is due, then for a tick after that finish, and it is no ONCE rule. */
  ghost predicate NotDueAgain(b: Book, f: nat)
    requires f < |b.firings| && b.firings[f].finishedAt.Some? && b.firings[f].rule < |b.rules|
    requires Valid(b.clock) && RulesValid(b.rules) && Valid(b.firings[f].finishedAt.value)
  {
    var firing := b.firings[f];
    Due(b.rules[firing.rule], b.clock) ==>
      && !b.rules[firing.rule].cadence.Once?
      && Instant(b.rules[firing.rule].next.value) > Instant(firing.finishedAt.value)
      && firing.key != b.rules[firing.rule].next
  }

  lemma SoundNotDueAgain(b: Book, f: nat)
    requires Sound(b) && f < |b.firings| && b.firings[f].finishedAt.Some?
    ensures b.firings[f].rule < |b.rules| && Valid(b.firings[f].finishedAt.value) && NotDueAgain(b, f)
  {
    assert InTime(b.firings[f], b.clock);
  }

  /** Once a firing has finished, its rule is only ever due again for a tick after that finish, so for
      none that already fired and finished; and a ONCE rule is never due again. */
  lemma FiredTickNeverRecurs(b: Book, ops: seq<Op>)
    requires Untouched(b)
    ensures var t := After(b, ops);
            forall f: nat :: f < |t.firings| && t.firings[f].finishedAt.Some? ==>
              t.firings[f].rule < |t.rules| && Valid(t.firings[f].finishedAt.value) && NotDueAgain(t, f)
  {
    var t := After(b, ops);
    forall f: nat | f < |t.firings| && t.firings[f].finishedAt.Some?
      ensures t.firings[f].rule < |t.rules| && Valid(t.firings[f].finishedAt.value) && NotDueAgain(t, f)
    {
      SoundNotDueAgain(t, f);
    }
  }

  /** A cron that reads the rule, if it is due, reads a tick later than every finish of its firings. */
  ghost predicate ReadsLater(t: Book, cron: nat, rule: nat)
    requires Sound(t)
  {
    var read := Apply(t, LoadDue(cron, rule));
    rule < |t.rules| && Due(t.rules[rule], t.clock) ==>
      cron in read.snaps &&
      forall f: nat :: f < |t.firings| && t.firings[f].finishedAt.Some? && t.firings[f].rule == rule ==>
        InTime(t.firings[f], t.clock) && Valid(read.snaps[cron].due) &&
        Instant(read.snaps[cron].due) > Instant(t.firings[f].finishedAt.value)
  }

  /** In every reachable book a cron reads a tick later than every finish of that rule's firings. */
  lemma LoadedTicksGrow(b: Book, ops: seq<Op>, cron: nat, rule: nat)
    requires Untouched(b)
    ensures ReadsLater(After(b, ops), cron, rule)
  {
    var t := After(b, ops);
    FiredTickNeverRecurs(b, ops);
    forall f: nat | f < |t.firings| && t.firings[f].finishedAt.Some? && t.firings[f].rule == rule
      ensures InTime(t.firings[f], t.clock) && NotDueAgain(t, f)
    {
      SoundNotDueAgain(t, f);
    }
  }

  /* ---- the service that does it in place ---- */

  /** How driving one rule's run ends: in a terminal status, or past the deadline, which raises. */
  datatype End = Ended(at: Moment, succeeded: bool) | TimedOut(at: Moment)

  function Later(clock: Moment, at: Moment): Moment
    requires Valid(clock) && Valid(at)
  {
    if Instant(at) >= Instant(clock) then at else clock
  }

  /** The deadline raises only if the run that was found or created is still open. */
  predicate Raises(b: Book, s: Snapshot, end: End) {
    var firings := Fire(b.firings, s.rule, Some(s.due), b.clock);
    var f := IndexOf(firings, s.rule, s.due);
    end.TimedOut? && f < |firings| && firings[f].open
  }

  /** One rule fired for the tick it was read with, and its run driven to this end. */
  function RunOne(b: Book, s: Snapshot, end: End): Book
    requires ClockFits(b.clock) && ClockFits(end.at) && RulesValid(b.rules)
  {
    var firings := Fire(b.firings, s.rule, Some(s.due), b.clock);
    var later := b.(firings := firings, clock := Later(b.clock, end.at));
    var f := IndexOf(firings, s.rule, s.due);
    if end.Ended? && f < |firings| then Finish(later, f, end.succeeded) else later
  }

  lemma RunOneFits(b: Book, s: Snapshot, end: End)
    requires ClockFits(b.clock) && ClockFits(end.at) && RulesValid(b.rules)
    ensures var r := RunOne(b, s, end);
            ClockFits(r.clock) && RulesValid(r.rules) && SameFlags(b.rules, r.rules)
  {
    var firings := Fire(b.firings, s.rule, Some(s.due), b.clock);
    var later := b.(firings := firings, clock := Later(b.clock, end.at));
    if end.Ended? {
      AdvanceStaysValid(later, IndexOf(firings, s.rule, s.due), end.succeeded);
    }
  }

  /** One end for every rule, each at a time the calendar holds. */
  ghost predicate EndsFit(rules: nat, ends: seq<End>) {
    |ends| == rules && forall r :: 0 <= r < |ends| ==> ClockFits(ends[r].at)
  }

  ghost predicate Selected(rules: nat, due: seq<Snapshot>) {
    forall k :: 0 <= k < |due| ==> due[k].rule < rules
  }

  /** The rules a cron invocation selected, run in order; a raise leaves the rest unfired. False means it
      raised. */
  function Drain(b: Book, due: seq<Snapshot>, ends: seq<End>): (Book, bool)
    requires ClockFits(b.clock) && RulesValid(b.rules) && EndsFit(|b.rules|, ends) && Selected(|b.rules|, due)
    decreases |due|
  {
    if due == [] then (b, true)
    else
      var end := ends[due[0].rule];
      RunOneFits(b, due[0], end);
      var next := RunOne(b, due[0], end);
      if Raises(b, due[0], end) then (next, false) else Drain(next, due[1..], ends)
  }

  lemma DrainFrom(b: Book, due: seq<Snapshot>, ends: seq<End>, k: nat)
    requires ClockFits(b.clock) && RulesValid(b.rules) && k < |due|
    requires EndsFit(|b.rules|, ends) && Selected(|b.rules|, due)
    ensures var end := ends[due[k].rule];
            var next := RunOne(b, due[k], end);
            && ClockFits(next.clock) && RulesValid(next.rules) && |next.rules| == |b.rules|
            && Selected(|b.rules|, due[k..]) && Selected(|b.rules|, due[k + 1..])
            && Drain(b, due[k..], ends) == if Raises(b, due[k], end) then (next, false)
                else Drain(next, due[k + 1..], ends)
  {
    RunOneFits(b, due[k], ends[due[k].rule]);
    assert due[k..][0] == due[k] && due[k..][1..] == due[k + 1..];
  }

  /** Running one rule keeps every firing's rule and key, and leaves its own tick fired. */
  lemma RunOneFires(b: Book, s: Snapshot, end: End, rule: nat, tick: Moment)
    requires ClockFits(b.clock) && ClockFits(end.at) && RulesValid(b.rules)
    ensures KeyTaken(b.firings, rule, tick) || (rule == s.rule && tick == s.due) ==>
              KeyTaken(RunOne(b, s, end).firings, rule, tick)
  {
    var firings := Fire(b.firings, s.rule, Some(s.due), b.clock);
    var after := RunOne(b, s, end).firings;
    assert |after| == |firings| && forall f :: 0 <= f < |firings| ==>
        after[f].rule == firings[f].rule && after[f].key == firings[f].key;
    if KeyTaken(b.firings, rule, tick) {
      var f :| 0 <= f < |b.firings| && b.firings[f].rule == rule && b.firings[f].key == Some(tick);
      assert after[f].rule == rule && after[f].key == Some(tick);
    } else if rule == s.rule && tick == s.due {
      assert after[|firings| - 1].rule == rule && after[|firings| - 1].key == Some(tick);
    }
  }

  /** A cron invocation that completes leaves no tick it selected unfired; with one that raises, the ticks
      up to the one that raised are fired. */
  lemma {:induction false} DrainFires(b: Book, due: seq<Snapshot>, ends: seq<End>) returns (upTo: nat)
    requires ClockFits(b.clock) && RulesValid(b.rules) && EndsFit(|b.rules|, ends) && Selected(|b.rules|, due)
    ensures upTo <= |due| && (Drain(b, due, ends).1 <==> upTo == |due|)
    ensures forall k :: 0 <= k < |due| && k <= upTo ==> KeyTaken(Drain(b, due, ends).0.firings, due[k].rule, due[k].due)
    ensures forall rule: nat, tick: Moment :: KeyTaken(b.firings, rule, tick) ==>
        KeyTaken(Drain(b, due, ends).0.firings, rule, tick)
    decreases |due|
  {
    upTo := 0;
    if due != [] {
      var end := ends[due[0].rule];
      var next := RunOne(b, due[0], end);
      RunOneFits(b, due[0], end);
      RunOneFires(b, due[0], end, due[0].rule, due[0].due);
      forall rule: nat, tick: Moment | KeyTaken(b.firings, rule, tick) ensures KeyTaken(next.firings, rule, tick) {
        RunOneFires(b, due[0], end, rule, tick);
      }
      if !Raises(b, due[0], end) {
        var rest := DrainFires(next, due[1..], ends);
        upTo := rest + 1;
        assert forall k :: 0 < k < |due| ==> due[k] == due[1..][k - 1];
      }
    }
  }

  lemma AdvanceStaysValid(b: Book, f: nat, succeeded: bool)
    requires ClockFits(b.clock) && RulesValid(b.rules)
    ensures f < |b.firings| ==> RulesValid(Finish(b, f, succeeded).rules)
  {
    if f < |b.firings| && b.firings[f].rule < |b.rules| {
      AdvanceMovesOn(b.rules[b.firings[f].rule].cadence, b.clock);
    }
  }

  /** The first firing of a rule for a tick, or the number of firings if there is none. */
  function IndexOf(firings: seq<Firing>, rule: nat, tick: Moment): nat {
    if firings == [] then 0
    else if firings[0].rule == rule && firings[0].key == Some(tick) then 0
    else 1 + IndexOf(firings[1..], rule, tick)
  }

  /** What the due query returns, in row order. */
  function DueNow(rules: seq<Rule>, now: Moment, k: nat): seq<Snapshot>
    requires Valid(now) && RulesValid(rules) && k <= |rules|
  {
    if k == 0 then []
    else DueNow(rules, now, k - 1) + if Due(rules[k - 1], now) then [Snapshot(k - 1, rules[k - 1].next.value)] else []
  }

  /** Rule r is switched on, can run, is still there, and its next run was set for time t, which has come. */
  ghost predicate DueAt(rules: seq<Rule>, now: Moment, r: nat, t: Moment)
    requires Valid(now) && RulesValid(rules)
  {
    && r < |rules| && rules[r].active && !rules[r].stub && !rules[r].deleted
    && rules[r].next == Some(t) && Instant(t) <= Instant(now)
  }

  lemma {:induction false} DueNowInOrder(rules: seq<Rule>, now: Moment, k: nat)
    requires Valid(now) && RulesValid(rules) && k <= |rules|
    ensures var due := DueNow(rules, now, k);
            && Selected(k, due)
            && forall i, j :: 0 <= i < j < |due| ==> due[i].rule < due[j].rule
  {
    if k > 0 {
      DueNowInOrder(rules, now, k - 1);
    }
  }

  lemma {:induction false} DueNowHas(rules: seq<Rule>, now: Moment, k: nat, r: nat, t: Moment)
    requires Valid(now) && RulesValid(rules) && r < k <= |rules| && DueAt(rules, now, r, t)
    ensures Snapshot(r, t) in DueNow(rules, now, k)
  {
    if r < k - 1 {
      DueNowHas(rules, now, k - 1, r, t);
    } else {
      assert DueNow(rules, now, k) == DueNow(rules, now, k - 1) + [Snapshot(r, t)];
    }
  }

  /** The due query returns every rule that is due, with the tick it is due for, and no other; each once, in
      row order. */
  lemma DueNowIs(rules: seq<Rule>, now: Moment)
    requires Valid(now) && RulesValid(rules)
    ensures var due := DueNow(rules, now, |rules|);
            && Selected(|rules|, due)
            && (forall i, j :: 0 <= i < j < |due| ==> due[i].rule < due[j].rule)
            && (forall r: nat, t: Moment :: DueAt(rules, now, r, t) <==> Snapshot(r, t) in due)
  {
    var due := DueNow(rules, now, |rules|);
    DueNowInOrder(rules, now, |rules|);
    DueAreRunnable(rules, now, |rules|);
    forall r: nat, t: Moment ensures DueAt(rules, now, r, t) <==> Snapshot(r, t) in due {
      if DueAt(rules, now, r, t) {
        DueNowHas(rules, now, |rules|, r, t);
      }
      if Snapshot(r, t) in due {
        var j :| 0 <= j < |due| && due[j] == Snapshot(r, t);
      }
    }
  }

  /** A cron invocation that completes leaves a pipeline run for every tick that was due as it began. */
  lemma CompletedFiresAll(b: Book, ends: seq<End>)
    requires ClockFits(b.clock) && RulesValid(b.rules) && EndsFit(|b.rules|, ends)
    ensures var due := DueNow(b.rules, b.clock, |b.rules|);
            && Selected(|b.rules|, due)
            && (Drain(b, due, ends).1 ==>
                  forall r: nat, t: Moment :: DueAt(b.rules, b.clock, r, t) ==>
                    KeyTaken(Drain(b, due, ends).0.firings, r, t))
  {
    var due := DueNow(b.rules, b.clock, |b.rules|);
    DueNowIs(b.rules, b.clock);
    var upTo := DrainFires(b, due, ends);
    forall r: nat, t: Moment | DueAt(b.rules, b.clock, r, t) && upTo == |due|
      ensures KeyTaken(Drain(b, due, ends).0.firings, r, t)
    {
      var k :| 0 <= k < |due| && due[k] == Snapshot(r, t);
      assert KeyTaken(Drain(b, due, ends).0.firings, due[k].rule, due[k].due);
    }
  }

  /** No rule was deleted, restored, or moved to or from a stub destination. */
  ghost predicate SameFlags(a: seq<Rule>, b: seq<Rule>) {
    |a| == |b| && forall i :: 0 <= i < |a| ==> b[i].deleted == a[i].deleted && b[i].stub == a[i].stub
  }

  /** None of the selected rules is deleted or a stub. */
  ghost predicate Runnable(rules: seq<Rule>, due: seq<Snapshot>) {
    forall j :: 0 <= j < |due| ==>
      due[j].rule < |rules| && !rules[due[j].rule].deleted && !rules[due[j].rule].stub
  }

  lemma StillRunnable(a: seq<Rule>, b: seq<Rule>, due: seq<Snapshot>)
    requires SameFlags(a, b) && Runnable(a, due)
    ensures Runnable(b, due)
  {}

  class AutomationService {
    var clock: Moment
    var rules: seq<Rule>
    var firings: seq<Firing>
    var records: seq<Record>

    ghost predicate Ready()
      reads this
    {
      ClockFits(clock) && RulesValid(rules)
    }

    ghost function Value(): Book
      reads this
    {
      Book(clock, rules, firings, map[], records)
    }

    constructor (clock: Moment, rules: seq<Rule>)
      requires ClockFits(clock) && RulesValid(rules)
      ensures Ready() && Untouched(Value()) && Value() == Book(clock, rules, [], map[], [])
    {
      this.clock := clock;
      this.rules := rules;
      firings := [];
      records := [];
    }

    /** The start of run_rule: reject a stub destination, derive the key, get or create the run. */
    method StartRule(r: nat, due: Option<Moment>) returns (result: Result<nat, RunError>)
      modifies this`firings
      ensures r >= |rules| || rules[r].deleted ==> result == Err(NoSuchRule) && firings == old(firings)
      ensures r < |rules| && !rules[r].deleted && rules[r].stub ==>
          result == Err(StubDestination) && firings == old(firings)
      ensures r < |rules| && !rules[r].deleted && !rules[r].stub ==>
                && firings == Fire(old(firings), r, due, clock)
                && result.Ok? && result.value < |firings|
                && firings[result.value].rule == r && firings[result.value].key == due
                && (due.Some? ==> result.value == IndexOf(firings, r, due.value))
    {
      if r >= |rules| || rules[r].deleted {
        return Err(NoSuchRule);
      }
      if rules[r].stub {
        return Err(StubDestination);
      }
      var f := 0;
      if due.Some? {
        while f < |firings| && !(firings[f].rule == r && firings[f].key == due)
          invariant 0 <= f <= |firings|
          invariant forall g :: 0 <= g < f ==> !(firings[g].rule == r && firings[g].key == due)
        {
          f := f + 1;
        }
        IndexOfIs(firings, r, due.value, f);
        if f < |firings| {
          assert KeyTaken(firings, r, due.value);
          return Ok(f);
        }
      }
      f := |firings|;
      firings := firings + [Firing(r, due, clock, None, true)];
      if due.Some? { IndexOfIs(firings, r, due.value, f); }
      return Ok(f);
    }

    /** The terminal event of a pipeline run: an automation record, and the schedule moved on. */
    method OnPipelineFinished(f: nat, succeeded: bool)
      requires Ready() && f < |firings|
      modifies this`firings, this`rules, this`records
      ensures Ready() && Value() == Finish(old(Value()), f, succeeded)
    {
      AdvanceStaysValid(Value(), f, succeeded);
      if !firings[f].open {
        return;
      }
      firings := firings[f := firings[f].(finishedAt := Some(clock), open := false)];
      var r := firings[f].rule;
      if r >= |rules| || rules[r].deleted {
        return;
      }
      records := records + [Record(f, succeeded, clock)];
      match Advance(rules[r].cadence, clock)
      case Err(_) =>
      case Ok(next) =>
        var rule := rules[r].(last := Some(clock), next := next);
        if rule.cadence.Once? {
          rule := rule.(active := false);
        }
        rules := rules[r := rule];
    }

    /** run_rule for a due rule: find or create its run and drive it; past the deadline it raises. */
    method RunRule(s: Snapshot, end: End) returns (result: Result<nat, RunError>)
      requires Ready() && ClockFits(end.at)
      requires s.rule < |rules| && !rules[s.rule].deleted && !rules[s.rule].stub
      modifies this
      ensures Ready() && Value() == RunOne(old(Value()), s, end)
      ensures result == Err(PastDeadline) <==> Raises(old(Value()), s, end)
      ensures result.Err? ==> result.error == PastDeadline
      ensures SameFlags(old(rules), rules)
    {
      RunOneFits(Value(), s, end);
      var started := StartRule(s.rule, Some(s.due));
      if Instant(end.at) >= Instant(clock) {
        clock := end.at;
      }
      if end.Ended? {
        OnPipelineFinished(started.value, end.succeeded);
      } else if firings[started.value].open {
        return Err(PastDeadline);
      }
      return Ok(started.value);
    }

    /** The selected rules, run in order until one raises. */
    method RunSelected(due: seq<Snapshot>, ends: seq<End>) returns (completed: bool)
      requires Ready() && EndsFit(|rules|, ends) && Selected(|rules|, due)
      requires Runnable(rules, due)
      modifies this
      ensures Ready() && (Value(), completed) == Drain(old(Value()), due, ends)
    {
      ghost var n := |rules|;
      ghost var total := Drain(Value(), due, ends);
      var k := 0;
      assert due[k..] == due;
      while k < |due|
        invariant 0 <= k <= |due| && Ready() && |rules| == n && Selected(n, due) && Selected(n, due[k..])
        invariant Runnable(rules, due)
        invariant total == Drain(Value(), due[k..], ends)
      {
        DrainFrom(Value(), due, ends, k);
        ghost var before := rules;
        var result := RunRule(due[k], ends[due[k].rule]);
        StillRunnable(before, rules, due);
        if result.Err? {
          return false;
        }
        k := k + 1;
      }
      assert due[k..] == [];
      return true;
    }

    /** One cron invocation: the rules due now are selected once and run in order, until one raises. If none
        does, every rule that was due as it began has a run for its due tick. */
    method RunDue(ends: seq<End>) returns (completed: bool)
      requires Ready() && EndsFit(|rules|, ends)
      modifies this
      ensures Selected(|old(rules)|, DueNow(old(rules), old(clock), |old(rules)|))
      ensures Ready() && (Value(), completed) == Drain(old(Value()), DueNow(old(rules), old(clock), |old(rules)|), ends)
      ensures completed ==> forall r: nat, t: Moment :: DueAt(old(rules), old(clock), r, t) ==> KeyTaken(firings, r, t)
    {
      DueAreRunnable(rules, clock, |rules|);
      CompletedFiresAll(Value(), ends);
      completed := RunSelected(DueNow(rules, clock, |rules|), ends);
    }
  }

  lemma {:induction false} IndexOfIs(firings: seq<Firing>, rule: nat, tick: Moment, f: nat)
    requires f <= |firings|
    requires forall g :: 0 <= g < f ==> !(firings[g].rule == rule && firings[g].key == Some(tick))
    requires f < |firings| ==> firings[f].rule == rule && firings[f].key == Some(tick)
    ensures IndexOf(firings, rule, tick) == f
  {
    if f > 0 {
      IndexOfIs(firings[1..], rule, tick, f - 1);
    }
  }

  lemma {:induction false} DueAreRunnable(rules: seq<Rule>, now: Moment, k: nat)
    requires Valid(now) && RulesValid(rules) && k <= |rules|
    ensures forall j :: 0 <= j < |DueNow(rules, now, k)| ==>
              var s := DueNow(rules, now, k)[j];
              s.rule < |rules| && Due(rules[s.rule], now) && rules[s.rule].next == Some(s.due)
  {
    if k > 0 {
      DueAreRunnable(rules, now, k - 1);
    }
  }
}
