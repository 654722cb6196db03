/** A run while its step rows are still being created: start creates the run first and then one row after
    another, and ticks may find it in between (platform/workflow/services.py). */
module Creation {
  import opened Workflow
  import opened EngineSpec
  import opened Coherence
  import Saga

  /** What happens to a run from its creation on: the next row appears, or any other action. */
  datatype Event = InsertRow | Act(action: Action)

  function Defs(env: Env, run: RunRow): seq<StepDef> {
    env.registry(run.pipeline)
  }

  function Step(env: Env, run: RunRow, event: Event): RunRow {
    match event
    case InsertRow =>
      if |run.steps| < |Defs(env, run)| then
        run.(steps := run.steps + [FreshStep(Defs(env, run)[|run.steps|].key)])
      else run
    case Act(a) => Apply(env, run, a).run
  }

  /** The run as created, with no rows yet, after a whole history. */
  function Created(env: Env, born: RunRow, events: seq<Event>): RunRow {
    if events == [] then born.(steps := [])
    else Step(env, Created(env, born, events[..|events| - 1]), events[|events| - 1])
  }

  /** The tick finds every row so far done, and rows still missing. */
  predicate FindsShort(env: Env, run: RunRow, event: Event) {
    && event.Act? && event.action.Tick?
    && (run.status.Queued? || run.status.Running?)
    && run.index == |run.steps| < |Defs(env, run)|
  }

  /** The run says SUCCESS with steps left that it never got to. */
  predicate EndedShort(env: Env, run: RunRow) {
    run.status.Success? && run.index < |Defs(env, run)|
  }

  /** The rows from the index on, if any, were never touched. */
  ghost predicate RestUntouched(run: RunRow) {
    forall i :: run.index <= i < |run.steps| ==> run.steps[i].status.Pending? && run.steps[i].attempt == 0
  }

  /** Only the row at the index can be RUNNING; a run that says SUCCESS has none, and no row from the index on
      was touched. */
  ghost predicate Tidy(run: RunRow) {
    && run.index <= |run.steps|
    && (forall i :: 0 <= i < |run.steps| && i != run.index ==> !run.steps[i].status.Running?)
    && (run.status.Success? ==> RestUntouched(run))
  }

  lemma {:induction false} ReclaimFirstTidy(env: Env, run: RunRow, k: nat, now: Time)
    requires Tidy(run) && k <= |run.steps|
    ensures ReclaimFirst(env, run, k, now) == if run.index < k then ReclaimStep(env, run, run.index, now) else run
  {
    if k > 0 {
      ReclaimFirstTidy(env, run, k - 1, now);
    }
  }

  lemma AdvanceTidy(env: Env, run: RunRow, now: Time, body: BodyResult, undo: UndoResult)
    requires Tidy(run) && !Terminal(run.status)
    ensures var r := Advance(env, run, now, body, undo).run;
            && Tidy(r) && r.pipeline == run.pipeline
            && (r.status.Success? <==> (run.status.Queued? || run.status.Running?) && run.index == |run.steps|)
            && (r.status.Success? ==> r.index == run.index && r.steps == run.steps)
  {
    if run.status.Compensating? {
      UnwindTidy(env, run, now, undo);
    }
  }

  lemma UnwindTidy(env: Env, run: RunRow, now: Time, undo: UndoResult)
    requires Tidy(run) && run.status.Compensating?
    ensures var r := AdvanceCompensation(env, run, now, undo).run;
            Tidy(r) && !r.status.Success? && r.pipeline == run.pipeline
  {}

  lemma ReclaimTidy(env: Env, run: RunRow, now: Time)
    requires Tidy(run)
    ensures var r := Reclaim(env, run, now);
            && Tidy(r) && r.pipeline == run.pipeline && (run.status.Success? ==> r == run)
            && (r.status.Success? ==> run.status.Success?)
  {
    ReclaimFirstTidy(env, run, |run.steps|, now);
  }

  /** A run that says SUCCESS keeps its status and index; one that does not gets it only from a tick that
      finds the index at the number of rows. */
  lemma StepTidy(env: Env, run: RunRow, event: Event)
    requires Tidy(run)
    ensures var r := Step(env, run, event);
            && Tidy(r) && r.pipeline == run.pipeline
            && (run.status.Success? ==> r.status.Success? && r.index == run.index)
            && (!run.status.Success? ==>
                  (EndedShort(env, r) <==> FindsShort(env, run, event)))
  {
    match event
    case InsertRow =>
    case Act(a) =>
      match a {
        case Tick(now, body, undo) => if !Terminal(run.status) { AdvanceTidy(env, run, now, body, undo); }
        case ReclaimAt(now) => ReclaimTidy(env, run, now);
        case PauseRun | ResumeRun | CancelRun | RetryRun =>
      }
  }

  ghost predicate FindsShortAt(env: Env, born: RunRow, events: seq<Event>, j: nat)
    requires j < |events|
  {
    FindsShort(env, Created(env, born, events[..j]), events[j])
  }

  ghost predicate SomeTickFindsShort(env: Env, born: RunRow, events: seq<Event>) {
    exists j: nat :: j < |events| && FindsShortAt(env, born, events, j)
  }

  lemma SameBefore(env: Env, born: RunRow, events: seq<Event>, n: nat, j: nat)
    requires j < n <= |events|
    ensures FindsShortAt(env, born, events[..n], j) <==> FindsShortAt(env, born, events, j)
  {
    assert events[..n][..j] == events[..j];
  }

  lemma FindsShortGrows(env: Env, born: RunRow, events: seq<Event>)
    requires events != []
    ensures var most := events[..|events| - 1];
            SomeTickFindsShort(env, born, events) <==>
              SomeTickFindsShort(env, born, most) || FindsShortAt(env, born, events, |events| - 1)
  {
    var n := |events| - 1;
    forall j: nat | j < n ensures FindsShortAt(env, born, events[..n], j) <==> FindsShortAt(env, born, events, j) {
      SameBefore(env, born, events, n, j);
    }
  }

  lemma StepEndsShort(env: Env, run: RunRow, event: Event)
    requires Tidy(run)
    ensures EndedShort(env, Step(env, run, event)) <==> EndedShort(env, run) || FindsShort(env, run, event)
  {
    StepTidy(env, run, event);
  }

  lemma {:induction false} AlwaysTidy(env: Env, born: RunRow, events: seq<Event>)
    requires born.status.Queued? && born.index == 0
    ensures Tidy(Created(env, born, events)) && Created(env, born, events).pipeline == born.pipeline
  {
    if events != [] {
      AlwaysTidy(env, born, events[..|events| - 1]);
      StepTidy(env, Created(env, born, events[..|events| - 1]), events[|events| - 1]);
    }
  }

  /** Over every history of row insertions, ticks, crashes, reclaims and operator actions from the creation
      of a run on: it ends SUCCESS short of steps exactly when some tick finds the index at the number of
      rows so far while rows are still missing; and then every row that appears later stays PENDING. */
  lemma {:induction false} EndsShortIff(env: Env, born: RunRow, events: seq<Event>)
    requires born.status.Queued? && born.index == 0
    ensures EndedShort(env, Created(env, born, events)) <==> SomeTickFindsShort(env, born, events)
    ensures EndedShort(env, Created(env, born, events)) ==> RestUntouched(Created(env, born, events))
  {
    AlwaysTidy(env, born, events);
    if events != [] {
      var most := events[..|events| - 1];
      EndsShortIff(env, born, most);
      AlwaysTidy(env, born, most);
      StepEndsShort(env, Created(env, born, most), events[|events| - 1]);
      FindsShortGrows(env, born, events);
    }
  }

  /** A run that ended short breaks the saga promise as soon as its missing rows are there. */
  lemma EndedShortBreaks(env: Env, run: RunRow)
    requires Tidy(run) && EndedShort(env, run) && |run.steps| == |Defs(env, run)|
    ensures !Saga.Settled(run)
  {
    assert run.steps[run.index].status.Pending?;
  }

  lemma InsertsNext(env: Env, born: RunRow, k: nat)
    requires k < |Defs(env, born)|
    ensures Step(env, born.(steps := FreshSteps(Defs(env, born))[..k]), InsertRow) ==
            born.(steps := FreshSteps(Defs(env, born))[..k + 1])
  {
    var all := FreshSteps(Defs(env, born));
    assert all[..k + 1] == all[..k] + [all[k]];
  }

  function Inserts(k: nat): seq<Event> {
    if k == 0 then [] else Inserts(k - 1) + [InsertRow]
  }

  lemma OneMoreEvent(env: Env, born: RunRow, events: seq<Event>, event: Event)
    ensures Created(env, born, events + [event]) == Step(env, Created(env, born, events), event)
  {
    assert (events + [event])[..|events + [event]| - 1] == events;
  }

  /** If nothing comes before the last row, the run is the one that start is taken to create at once. */
  lemma {:induction false} UndisturbedIsFresh(env: Env, born: RunRow, k: nat)
    requires k <= |Defs(env, born)|
    ensures Created(env, born, Inserts(k)) == born.(steps := FreshSteps(Defs(env, born))[..k])
  {
    if k > 0 {
      UndisturbedIsFresh(env, born, k - 1);
      OneMoreEvent(env, born, Inserts(k - 1), InsertRow);
      InsertsNext(env, born, k - 1);
    }
  }
}
