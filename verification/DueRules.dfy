/** The scheduler said on rows and clock readings: which rules are due, what firing one of them leaves behind,
    and what a finish does to record and schedule. */
module DueRules {
  import opened Wrappers
  import opened Calendar
  import opened Scheduling

  /** Firing a rule for a tick creates a run if the tick has none and nothing otherwise; firing it for no tick,
      as a click does, always creates one. A new run is queued now and open. */
  lemma FireSays(firings: seq<Firing>, r: nat, tick: Moment, now: Moment)
    ensures Fire(firings, r, None, now) == firings + [Firing(r, None, now, None, true)]
    ensures Fire(firings, r, Some(tick), now) ==
            if KeyTaken(firings, r, tick) then firings else firings + [Firing(r, Some(tick), now, None, true)]
  {}

  /** The next run of a cadence, counted from a finish: a day, a week or a calendar month later at the same time
      of day, and none for ONCE. */
  ghost predicate NextRun(cadence: Cadence, finished: Moment, next: Option<Moment>)
    requires Valid(finished)
  {
    match cadence
    case Once => next.None?
    case Daily => next.Some? && Valid(next.value) && Instant(next.value) == Instant(finished) + 86400000000
    case Weekly => next.Some? && Valid(next.value) && Instant(next.value) == Instant(finished) + 7 * 86400000000
    case Monthly =>
      && next.Some? && Valid(next.value) && next.value.micros == finished.micros
      && 12 * next.value.date.year + next.value.date.month == 12 * finished.date.year + finished.date.month + 1
      && (next.value.date.day == finished.date.day ||
          (next.value.date.day == MonthLength(next.value.date.year, next.value.date.month) < finished.date.day))
  }

  lemma AdvanceSays(cadence: Cadence, finished: Moment)
    requires ClockFits(finished)
    ensures Advance(cadence, finished).Ok? && NextRun(cadence, finished, Advance(cadence, finished).value)
  {
    AdvanceMovesOn(cadence, finished);
    match cadence
    case Once =>
    case Daily => AdvanceDays(finished, 1);
    case Weekly => AdvanceDays(finished, 7);
    case Monthly => AddMonthShape(finished.date);
  }

  lemma AdvanceDays(from: Moment, n: nat)
    requires ClockFits(from) && n <= 31
    ensures AddDays(from.date, n).Ok? && ValidDate(AddDays(from.date, n).value)
    ensures Instant(from.(date := AddDays(from.date, n).value)) == Instant(from) + n * DAY_MICROS
  {
    AddDaysCounts(from.date, n);
    ShiftInstant(from, AddDays(from.date, n).value);
  }

  /** A terminal event of an open run closes it at that time. If its rule is still there it also makes one
      record, and moves the schedule on by the rule's cadence, which switches a ONCE rule off. */
  lemma FinishSays(b: Book, f: nat, succeeded: bool)
    requires ClockFits(b.clock) && f < |b.firings| && b.firings[f].rule < |b.rules|
    ensures var t := Finish(b, f, succeeded);
            var firing := b.firings[f];
            var r := firing.rule;
            && t.clock == b.clock && t.snaps == b.snaps
            && (!firing.open ==> t == b)
            && (firing.open ==>
                  && t.firings == b.firings[f := Firing(r, firing.key, firing.queuedAt, Some(b.clock), false)]
                  && (b.rules[r].deleted ==> t.records == b.records && t.rules == b.rules)
                  && (!b.rules[r].deleted ==>
                        && t.records == b.records + [Record(f, succeeded, b.clock)]
                        && |t.rules| == |b.rules|
                        && (forall q :: 0 <= q < |b.rules| && q != r ==> t.rules[q] == b.rules[q])
                        && NextRun(b.rules[r].cadence, b.clock, t.rules[r].next)
                        && t.rules[r] == Rule(b.rules[r].cadence, b.rules[r].active && !b.rules[r].cadence.Once?,
                                              t.rules[r].next, Some(b.clock), b.rules[r].stub, false)))
  {
    AdvanceSays(b.rules[b.firings[f].rule].cadence, b.clock);
  }

  /** The run of a rule's tick as RunOne leaves it: there, closed if it came to an end, and the invocation
      raises exactly if it was given up at the deadline and is still open. Time only moves forward. */
  lemma RunOneSays(b: Book, s: Snapshot, end: End) returns (f: nat)
    requires ClockFits(b.clock) && ClockFits(end.at) && RulesValid(b.rules) && s.rule < |b.rules|
    ensures var t := RunOne(b, s, end);
            && f < |t.firings| && t.firings[f].rule == s.rule && t.firings[f].key == Some(s.due)
            && (end.Ended? ==> !t.firings[f].open)
            && (Raises(b, s, end) <==> end.TimedOut? && t.firings[f].open)
            && Valid(t.clock) && Instant(t.clock) == Max(Instant(b.clock), Instant(end.at))
            && (forall g :: 0 <= g < |b.firings| && g != f ==> g < |t.firings| && t.firings[g] == b.firings[g])
            && (f < |b.firings| ==> |t.firings| == |b.firings|) && (f >= |b.firings| ==> |t.firings| == f + 1)
            && (f < |b.firings| && end.TimedOut? ==> t.firings[f] == b.firings[f])
            && (f >= |b.firings| ==> t.firings[f].queuedAt == b.clock)
  {
    var firings := Fire(b.firings, s.rule, Some(s.due), b.clock);
    assert firings != b.firings ==> firings[|b.firings|].rule == s.rule && firings[|b.firings|].key == Some(s.due);
    f := FirstRun(firings, s.rule, s.due);
  }

  lemma FirstRun(firings: seq<Firing>, r: nat, tick: Moment) returns (f: nat)
    requires KeyTaken(firings, r, tick)
    ensures f < |firings| && firings[f].rule == r && firings[f].key == Some(tick) && IndexOf(firings, r, tick) == f
  {
    f := 0;
    while f < |firings| && !(firings[f].rule == r && firings[f].key == Some(tick))
      invariant f <= |firings|
      invariant forall g :: 0 <= g < f ==> !(firings[g].rule == r && firings[g].key == Some(tick))
    {
      f := f + 1;
    }
    IndexOfIs(firings, r, tick, f);
  }

  /** A cron reads a rule exactly when it is due, with its due tick; later it fires what it read, whatever has
      happened to the rule since, and is done. */
  lemma CronSays(b: Book, cron: nat, r: nat)
    requires ClockFits(b.clock) && RulesValid(b.rules)
    ensures forall t: Moment :: DueAt(b.rules, b.clock, r, t) ==>
              Apply(b, LoadDue(cron, r)) == b.(snaps := b.snaps[cron := Snapshot(r, t)])
    ensures (forall t: Moment :: !DueAt(b.rules, b.clock, r, t)) ==> Apply(b, LoadDue(cron, r)) == b
    ensures cron in b.snaps ==>
              var t := Apply(b, FireLoaded(cron));
              && t.rules == b.rules && t.records == b.records && t.clock == b.clock && t.snaps == b.snaps - {cron}
              && (KeyTaken(b.firings, b.snaps[cron].rule, b.snaps[cron].due) ==> t.firings == b.firings)
              && (!KeyTaken(b.firings, b.snaps[cron].rule, b.snaps[cron].due) ==>
                    t.firings == b.firings +
                                 [Firing(b.snaps[cron].rule, Some(b.snaps[cron].due), b.clock, None, true)])
  {
    if r < |b.rules| && b.rules[r].next.Some? {
      assert DueAt(b.rules, b.clock, r, b.rules[r].next.value) <==> Due(b.rules[r], b.clock);
    }
  }

  /** The other things that happen to the book, field by field. */
  lemma OthersSay(b: Book, n: nat, to: Moment)
    requires ClockFits(b.clock) && RulesValid(b.rules)
    ensures ClockFits(to) && Instant(to) >= Instant(b.clock) ==> Apply(b, Wait(to)) == b.(clock := to)
    ensures n < |b.rules| && !b.rules[n].deleted && !b.rules[n].stub ==>
              Apply(b, RunNow(n)) == b.(firings := b.firings + [Firing(n, None, b.clock, None, true)])
    ensures n >= |b.rules| || b.rules[n].deleted || b.rules[n].stub ==> Apply(b, RunNow(n)) == b
    ensures n < |b.rules| ==>
              var rule := b.rules[n];
              Apply(b, DeleteRule(n)) == b.(rules := b.rules[n :=
                  Rule(rule.cadence, rule.active, rule.next, rule.last, rule.stub, true)])
    ensures n < |b.firings| && b.firings[n].finishedAt.Some? ==>
              var f := b.firings[n];
              Apply(b, Reopen(n)) == b.(firings := b.firings[n :=
                  Firing(f.rule, f.key, f.queuedAt, f.finishedAt, true)])
  {}
}
