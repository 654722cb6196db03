# Verification model of the platform's pipeline engine and its small stateful cores

A Dafny model of the code under `platform/` that keeps state across calls, crashes and races, with
proofs about every run, history or interleaving of it. `dafny verify dfyconfig.toml` checks the whole
project.

## What is modelled

**The pipeline engine** (`platform/workflow`) is a persistent step machine: a run has an ordered list of
step rows; each call advances one step, retries it with a backoff, or unwinds one completed step after a
failure or a cancel; a reclaim gives the steps of dead processes back. It appears three times:

- `Workflow`, `EngineSpec`: the rows, and what one engine call does to one run, as functions on values.
- `Engine`: a `Store` class whose methods change run rows and published events in place, with the
  loops the code has; each method equals its function.
- `Workers`: the same engine at the grain of single database operations. A worker carries the row
  copies it read earlier, and its unconditional saves write from those copies, as the code does.
  `Solo` proves that one worker alone does exactly what one engine call does.

`EngineFacts`, `Ticking`, `Recovery` and `WorkerFacts` say field by field what these functions and
operations come to, without their own helpers: rows and runs before and after, the output a body
returned and where it ends up, which locks a reclaim breaks, which runs a tick calls, what it publishes.

On these stand the theorems: `Coherence`, `Saga`, `Ledger`, `Retries`, `Termination`, `Draining` over
whole histories; `Creation` over those that begin before all step rows exist; `Claims`, `UndoOrder`,
`PublishOnce`, `Cancelling`, `Stalled` over interleavings; `Hazards` shows with concrete interleavings why
their hypotheses are there.

**Scheduling** (`platform/automation`): `Calendar` is the date arithmetic; `Scheduling` is the rule table
with its idempotency keys under overlapping cron invocations, clicks, retries and deletions, and
`DueRules` says what is due, fired and recorded in the fields of its rows.

**Smaller cores**: `Lockout` and `LockoutRace` (login lockout on an expiring counter, one attempt at a
time and many in flight), `FaceMatch` (the one-pass best and runner-up search), `StorageKeys`,
`Storage` and `TenantFiles` (file rows against the byte store), `AiGateway` and `AiCache` (rate limit,
retry, fallback, ledger; the response cache),
`Roles` (permission inheritance over parent links), `Metrics` (shared request counters).

## Hypotheses

- **Atomic calls.** In the function model one engine call, reclaim or operator action is one step: nothing
  happens between a call's read of the run and its last save, and a process dies only while a step body
  or a compensation runs. So the paired writes at platform/workflow/engine.py:134-142, 166-176 and 244-257
  and the two of `request_retry` (platform/workflow/services.py:137-145) are one step each. `Workers`
  separates all of these, lets calls overlap and lets a worker die between any two operations.
  Draining (`Draining.TicksDrain`) needs this: a run whose worker died between the two saves of a success
  never ends by ticks (`Stalled.StuckForever`, `Hazards.HalfSavedNeverEnds`).
- **Creation.** A run and its step rows appear together, although platform/workflow/services.py:57-73
  creates the run first. `Creation.EndsShortIff` says exactly when ticks in between end it short, and
  `Creation.UndisturbedIsFresh` that nothing differs if nothing comes in between.
- **Fail-stop.** `Claims.ClaimProtocol` and `UndoOrder.UndoneExactlyOnce` assume that a reclaim which takes
  effect takes a step only from a dead worker. `Hazards.ZombieRunsTwice` shows two executions under one
  attempt number without it.
- **Late success.** `UndoOrder.UndoGoesDown` assumes that no step becomes SUCCESS after compensation has
  begun. `Hazards.LateSuccessUnwindsUpwards` shows the order lost when a cancel lands inside a body.
- **Cancel timing.** `Saga.SagaKept` is for cancels that find no step marked RUNNING, and
  `Saga.CancelSafeIffIdle` proves that with atomic calls this is exactly the safe case. When calls overlap
  more is needed: no step may say FAILED and no worker may still act on what it read before.
  `Cancelling.CancelSafeAnytime` proves that these together are exact at every moment of every retry-free
  interleaving of fail-stop workers; `Hazards.CancelBetweenReadAndClaim` and
  `Hazards.CancelOverLostFailure` show the two others lost.
- **Retry.** A retry does not rewind the index or undo compensation. `Saga.SagaKept` is for retry-free
  histories; `Retries.RetrySafeIffFirst` says exactly which retries keep the promise. The ledger, the
  execution budget and the context hold for all histories.
- **Registry.** Every pipeline is registered and the registry does not change.
- **Rules** are not edited while they run; the clock stays before the year 9999. The finish of a run and
  the record and schedule change of its subscriber are one step.
- **Stored files.** `TenantFiles` assumes that each caller's key lies below the directory of the tenant it
  stores for, as platform/periods/resolution.py:43-57 builds keys, that this is the current tenant when
  there is one, that no tenant's slug is "t", and that generated keys differ from each other.
- **Lockout settings** have at least one attempt, positive times, base at most cap, factor at least 1.
- **Face scores** are real numbers between -1 and 1. **AI_MAX_RETRIES** is a natural number.
- **Cache keys** of the rate limiter and of the request counters are not evicted before they expire, and
  an hour of the rate limiter's clock does not repeat.
- Random keys, digests, provider replies, step results and clock readings are parameters, and are
  arbitrary unless said otherwise.

## Where the code and its documentation disagree

The model follows the code.

- docs/superpowers/specs/2026-07-24-pipeline-execution-engine-design.md:81 says the run status is checked
  again before a step's success is saved; platform/workflow/engine.py:134-142 does not check it.
- platform/workflow/engine.py:83-84 calls `advance_one` safe to call concurrently. Claims are; the saves
  of `context` and `current_step_index` write from a copy read before the body ran, and the save at
  platform/workflow/engine.py:107-110 puts RUNNING over a cancel that landed since the run was read
  (`Hazards.FirstClaimRevivesCancelled`).
- The reclaim sets COMPENSATING whatever the run's status is (platform/workflow/engine.py:253-257), so a
  run cancelled around a RUNNING step can leave its terminal status again
  (`Hazards.ReclaimRevivesCancelled`).
- platform/ai/services.py:79-82 means the cache key to tell requests apart. The parts are joined by NUL
  characters, so with a NUL in a text two requests can share a key (`AiCache.NulsCollide`).
- platform/storage/services.py:40-45 says the deduplicated key stays unique against the key constraint.
  The search sees only live rows of the current tenant, the constraint covers every row.
- platform/roles/services.py:52-54 revokes by marking assignment rows, and the join at
  platform/roles/services.py:17 reads marked rows too (`Roles.RevocationKeepsCodes`).
- The lockout count is meant to stop near max_attempts. With two or more attempts in flight it has no bound
  at all, under any settings (`LockoutRace.CountBoundedIffSerial`): each time an entry lapses under a
  worker about to store its count, one more failure is counted on top.

## Model

| member | source | states |
|---|---|---|
| Workflow.DefaultBackoffShape | platform/workflow/registry.py:15-17 | the default backoff is between 1 and 300 seconds, never shrinks with the attempt, and is at its cap exactly from the ninth attempt on |
| EngineFacts.DefaultBackoffDoubles | platform/workflow/registry.py:15-17 | the default backoff is one second at first and doubles from attempt to attempt, cut off at 300 |
| EngineSpec.TopSuccess | platform/workflow/engine.py:181 | the step found for compensation is SUCCESS and no later step is; none is found only if no step is SUCCESS |
| Engine.Store.ClaimStep | platform/workflow/engine.py:51-61 | a claim wins exactly from the expected status, and then sets status, attempt and lock of that one row and changes nothing else |
| Engine.Store.FinishRun | platform/workflow/engine.py:64-79 | an active run gets the terminal status, its time and one published event; any other run is untouched and nothing is published |
| Engine.Store.HandleStepFailure | platform/workflow/engine.py:146-177 | the new store after a failed attempt: pending again with its backoff, or failed and compensating, by the attempt limit that applies |
| Engine.Store.UnwindOne | platform/workflow/engine.py:180-218 | the new store, events and outcome of one compensation call are those of the specification |
| Engine.Store.AdvanceOne | platform/workflow/engine.py:82-143 | the new store, events and outcome of one advance are those of the specification the theorems are about |
| Engine.Store.RecordSuccess | platform/workflow/engine.py:134-143 | after a body returned: the step is SUCCESS with its output, the context has it under the step key, the index is one higher |
| EngineFacts.LookupFinds | platform/workflow/engine.py:112-112 | a lookup finds the first definition with the key |
| EngineFacts.AdvanceReturns | platform/workflow/engine.py:96-143 | a due step whose body returns: the row has SUCCESS, that output, one attempt more and no lock, the context has that output under the step key, the index is one higher, a queued run has started, and nothing else changes |
| EngineFacts.AdvanceRaises | platform/workflow/engine.py:131-177 | a due step whose body raises: pending again with next_attempt_at the failure plus its backoff if the attempts after this one are below max_attempts, else FAILED with the run compensating by failure; nothing else changes |
| EngineFacts.AdvanceUndefined | platform/workflow/engine.py:112-120 | a due step without a definition fails at once, whatever attempts are left, without its body being run |
| EngineFacts.AdvanceDies | platform/workflow/engine.py:103-130 | a process that dies in a body leaves the row RUNNING with its lock and one attempt used |
| EngineFacts.AdvanceHolds | platform/workflow/engine.py:86-104 | an advance with nothing due changes nothing and says paused, not due, claimed or finished, except that an active run past its last step becomes SUCCESS with its event |
| EngineFacts.UnwindsTop | platform/workflow/engine.py:180-218 | a compensation call takes the highest SUCCESS row to COMPENSATED, to COMPENSATION_FAILED if its compensation raises, or leaves it COMPENSATING if the process dies; nothing else changes |
| EngineFacts.UnwindEnds | platform/workflow/engine.py:181-189 | with no SUCCESS row left the pending rows are skipped and the run ends CANCELLED or FAILED by its reason, with the event of that ending |
| EngineFacts.OutputsReturned | platform/workflow/engine.py:129-143 | over every history, retries and crashes included: once the index has passed a step, its output is the one its body returned in some call of that history that found the step due; until then the output is untouched and the row is not SUCCESS |
| Engine.Store.ReclaimRun | platform/workflow/engine.py:229-258 | the rows of one run after the reclaim loop, and how many were reset |
| Engine.Store.ReclaimStaleSteps | platform/workflow/engine.py:221-259 | every run is reclaimed, and the number returned is the number of stale rows |
| Recovery.ReclaimSparesLiveLocks | platform/workflow/engine.py:227-252 | a reclaim leaves a row as it was if and only if it is not RUNNING, has no lock, or its lock plus its own timeout, or the default where it has none, is still to come; any other row loses its lock and is pending, or FAILED with no attempts left |
| Recovery.ReclaimFailsRunIff | platform/workflow/engine.py:253-257 | the run goes to compensation by failure if and only if one of its late rows has no attempts left, and nothing else of it changes |
| Recovery.SweepFreesLateLocks | platform/workflow/engine.py:227-258 | the same for every row of every run in the sweep a tick begins with |
| Recovery.LiveLockSurvivesTick | platform/workflow/engine.py:275-284 | a step under a lock inside its time comes through a whole tick unchanged, whatever the batch |
| Recovery.StaleTotalCounts | platform/workflow/engine.py:258-259 | the number returned is the number of rows the sweep changed, over all runs |
| Engine.BatchIsOldest | platform/workflow/engine.py:276-281 | the batch holds active runs only, none twice, as many as the limit allows, in the order they were queued, and no run left out was queued before one taken |
| Engine.Store.AdvanceBatch | platform/workflow/engine.py:279-288 | the listed runs are advanced once each, in order, up to one whose process dies |
| Engine.Store.TickAll | platform/workflow/engine.py:268-289 | one tick reclaims, then advances the batch in order, and stops only if its process dies; store, events and counts are those of the specification |
| Ticking.LimitIs | platform/workflow/engine.py:280-280 | no batch size, or zero, means the configured one |
| Ticking.CallUses | platform/workflow/engine.py:122-130 | a call changes its run alone, with what the body does under its next attempt number, or the compensation of the top success under its next |
| Ticking.CallPublishes | platform/workflow/engine.py:64-79 | a call publishes exactly one event, of the status it ends the run with, or none if it does not end it |
| Ticking.LoopCallsOnce | platform/workflow/engine.py:281-284 | each run the loop gets to is called once, on the row the loop began with, all of them unless a call dies, and no other run moves |
| Ticking.LoopPublishes | platform/workflow/engine.py:281-284 | the loop adds one event for each run it ended, of that ending, and none for any other |
| Ticking.TickCallsBatch | platform/workflow/engine.py:275-289 | a tick reclaims every run, then calls the runs of its batch once each up to one that dies, and leaves the others as reclaimed |
| Engine.Store.Start | platform/workflow/services.py:32-74 | a run is created exactly when the key is empty or free, and then its step rows one after another, all pending; otherwise the holder of the key is returned; keys stay unique |
| Creation.EndsShortIff | platform/workflow/services.py:57-73 | over every history of row insertions, ticks, crashes, reclaims and operator actions a run ends SUCCESS short of steps exactly when some tick finds the index at the number of rows so far while rows are missing; rows that appear later then stay PENDING |
| Creation.EndedShortBreaks | platform/workflow/engine.py:92-94 | a run that ended short breaks the saga promise as soon as its missing rows are there |
| Creation.UndisturbedIsFresh | platform/workflow/services.py:69-73 | if nothing comes in between, the rows inserted one by one make the run that creation is taken to make at once |
| Engine.Store.RunToCompletion | platform/workflow/services.py:76-92 | one advance per clock reading until the run is terminal; it reports success only for a terminal run |
| Ticking.DrainCalls | platform/workflow/services.py:83-92 | a drain is one call per clock reading from the first on, none once the run is terminal or after a call that died, and it stops only for these or the end of the clock |
| Engine.Store.RequestPause | platform/workflow/services.py:97-104 | only a queued or running run is paused; a refusal changes nothing |
| Engine.Store.RequestResume | platform/workflow/services.py:106-114 | only a paused run is resumed, to running if it had started and to queued if not |
| Engine.Store.RequestCancel | platform/workflow/services.py:116-132 | only a queued, running or paused run is cancelled, into compensation with that reason |
| Engine.Store.RequestRetry | platform/workflow/services.py:134-146 | only a failed run is retried: failed and skipped steps pending again, queued, no reason, index kept |
| EngineFacts.ControlsSay | platform/workflow/services.py:97-146 | which statuses accept pause, resume, cancel and retry, and every field of the run and its rows afterwards |
| EngineFacts.FreshSays | platform/workflow/services.py:46-73 | a new run is queued at its first step, its context is its input, and each row is pending and untouched under the key of its step |
| Coherence.AlwaysCoherent | platform/workflow/engine.py:82-259 | the shape of rows, index, locks, reason and status kept by every history, retries, crashes and badly timed cancels included |
| Coherence.ReclaimFirstIs | platform/workflow/engine.py:227-258 | in every reachable run a reclaim can touch the row at the index and no other |
| Saga.SagaKept | platform/workflow/engine.py:82-218 | in every state of a retry-free history with idle cancels: SUCCESS exactly below the index, the step at the index pending or running, later steps untouched; a SUCCESS run has every step SUCCESS; a FAILED or CANCELLED one has none left SUCCESS, PENDING or RUNNING and the matching reason |
| Saga.AlwaysInOrder | platform/workflow/engine.py:180-218 | the stronger invariant behind it: the unwind goes from the top, and unreached steps end skipped |
| Saga.CancelSafeIffIdle | platform/workflow/services.py:116-132 | with engine calls as single steps: everything that can follow a cancel keeps the promise if and only if no step says RUNNING when it lands |
| Cancelling.CancelSafeIff | platform/workflow/services.py:116-132 | in any forward run with claims held by their claimers and no retry under way, every interleaving after a cancel keeps the promise if and only if, as it lands, no step says RUNNING or FAILED and no worker may still act on what it read before |
| Cancelling.CancelSafeAnytime | platform/workflow/services.py:116-132 | the same at every moment of every retry-free interleaving of fail-stop workers from a fresh run, earlier cancels, deaths and reclaims included |
| Cancelling.NextStays | platform/workflow/engine.py:82-259 | after a safe cancel no database operation of any worker makes a row SUCCESS or PENDING that was not, or any row RUNNING or FAILED, or ends the run otherwise than CANCELLED with nothing left |
| Cancelling.Unwinds | platform/workflow/engine.py:180-218 | with any workers standing where they stand, one more worker can unwind a compensating run to its terminal status |
| Hazards.CancelBetweenReadAndClaim | platform/workflow/engine.py:91-104 | a concrete interleaving in which a cancel finds no RUNNING step and the run still ends CANCELLED with a step that succeeded and is never undone |
| Hazards.CancelOverLostFailure | platform/workflow/engine.py:166-176 | a concrete interleaving in which a worker saves FAILED and dies before it tells the run; the cancel that follows finds nothing RUNNING and the run ends CANCELLED over a FAILED step |
| Hazards.FirstClaimRevivesCancelled | platform/workflow/engine.py:107-110 | a concrete interleaving in which the save after the first claim puts RUNNING over a cancel |
| Hazards.ReclaimRevivesCancelled | platform/workflow/engine.py:253-257 | a concrete interleaving in which a reclaim takes a CANCELLED run back to COMPENSATING |
| Stalled.StuckForever | platform/workflow/engine.py:134-142 | a forward run whose current row says SUCCESS with the index unmoved, with no worker that can act on it, never ends or runs a step under any ticks, deaths, reclaims, pauses or resumes |
| Stalled.CancelFrees | platform/workflow/services.py:116-132 | a cancel does get such a run to CANCELLED |
| Hazards.HalfSavedNeverEnds | platform/workflow/engine.py:138-142 | a worker that dies between the two saves of a success leaves such a run |
| Saga.UnwindsAround | platform/workflow/engine.py:180-189 | a run cancelled around a RUNNING step can end CANCELLED with that step still RUNNING |
| Retries.RetrySafeIffFirst | platform/workflow/services.py:134-146 | a retry keeps the saga promise in everything that follows if and only if the run failed on its first step |
| Retries.RetriedCanEndOverUndone | platform/workflow/services.py:134-146 | a run retried past its first step can end SUCCESS over steps that stay compensated |
| Retries.ContextIsOverlay | platform/workflow/engine.py:140-142 | over every history the context is the input overlaid with the outputs of the steps below the index, in order |
| Ledger.SuccessLedger | platform/workflow/engine.py:134-138 | over every history a step records success at most once, successes minus compensation claims is 1 exactly while it says SUCCESS, and its attempt counter is the number of claims won on it |
| Ledger.ExecutionBudget | platform/workflow/engine.py:146-164 | with r retries a body runs at most max(1, max_attempts) + r times, never twice under one attempt number |
| Ledger.BackoffSet | platform/workflow/engine.py:96-104 | no body starts before its next_attempt_at, and a failure to be retried sets that to the failure plus the step's backoff |
| Ledger.BackoffRespected | platform/workflow/engine.py:146-164 | whatever ticks, reclaims, pauses, resumes and cancels come between a failure to be retried and the next start of the step, that start is no earlier than the failure plus the backoff |
| Ledger.RetryGrantsOne | platform/workflow/services.py:134-146 | over everything that follows a retry, up to the next one, the failed step's body is started at most once more, and not at all while the step still waits |
| Ledger.RetryRunsIt | platform/workflow/services.py:134-146 | a retry re-arms the failed step and touches none before it, and the next call runs that step |
| Ledger.SameShape | platform/workflow/models.py:121-145 | no action adds, drops or renames a step row |
| Termination.AdvanceLighter | platform/workflow/engine.py:82-218 | every advance with an effective outcome strictly lowers a measure, and any other changes nothing |
| Termination.RunTerminates | platform/workflow/engine.py:82-259 | a retry-free run of n steps sees at most (sum of limits) + n + 1 effective ticks, and is over when they are used |
| Draining.TickMoves | platform/workflow/engine.py:268-289 | a tick past the waits either strictly lightens the store or leaves it with nothing to do |
| Draining.TicksDrain | platform/workflow/engine.py:268-289 | with any batch limit of at least one, no run is active after as many ticks as the summed measures, nor later |
| Draining.ReclaimReadies | platform/workflow/engine.py:221-259 | a late enough reclaim leaves no step RUNNING and every active run ready to advance |
| Claims.NextLawful | platform/workflow/engine.py:51-259 | what any one database operation may do to rows, log and workers |
| Claims.ClaimProtocol | platform/workflow/engine.py:51-61 | under any interleaving in which no reclaim takes a step from a live worker, overlapping reclaims included: attempts count claims, a step has at most one owner, no attempt number is executed twice |
| UndoOrder.UndoGoesDown | platform/workflow/engine.py:180-194 | under any interleaving without a late success, compensation claims go strictly down |
| UndoOrder.NoDoubleUndo | platform/workflow/engine.py:191-194 | under every interleaving each compensation claim uses up a success recorded on its step |
| UndoOrder.UndoneExactlyOnce | platform/workflow/engine.py:134-138 | under any interleaving of fail-stop workers a step records at most one success, and its compensation claims, plus one while it says SUCCESS, are exactly as many |
| PublishOnce.PublishedOncePerTransition | platform/workflow/engine.py:64-79 | for any number of racing finishers, events published, pending or lost with their publisher are as many as the transitions into that status, and carry its event |
| PublishOnce.FinishersKept | platform/workflow/engine.py:68-70 | the run turns terminal exactly by the guarded update of a finisher |
| Solo.SoloIsAdvance | platform/workflow/engine.py:82-218 | a worker alone in the interleaved model does to a run what one advance does |
| Solo.SoloReclaims | platform/workflow/engine.py:240-257 | a reclaimer alone with a row does to the run what the sweep does for that row |
| Solo.SoloRetries | platform/workflow/services.py:134-146 | a retry alone does in its two saves what the one-step retry does |
| Solo.SoloControls | platform/workflow/services.py:97-132 | pause, resume and cancel are the same single update in both models |
| WorkerFacts.ReadsSay | platform/workflow/engine.py:86-101 | the run as read decides by its status and index what a worker looks at next, and the rows as they are now decide the rest |
| WorkerFacts.ClaimsSay | platform/workflow/engine.py:51-61 | a claim is won exactly from the status it is for, and uses up an attempt; the first of a run as it was read puts RUNNING whatever the run says by then |
| WorkerFacts.BodiesSay | platform/workflow/engine.py:112-132 | which body runs, under which attempt, and that nothing is written meanwhile |
| WorkerFacts.SavesSay | platform/workflow/engine.py:134-177 | the saves of a success and of a failure one by one: the row keeps what else it says now, context and index are written from the copy, and a failed run is sent to compensation whatever it says |
| WorkerFacts.UndosSay | platform/workflow/engine.py:196-218 | a compensation runs if the step has one, and its outcome is saved on the row as it is |
| WorkerFacts.EndsSay | platform/workflow/engine.py:181-189 | skipping, the guarded finish with the status chosen from the copy, and the announcement of that status two operations later |
| WorkerFacts.RecoveriesSay | platform/workflow/engine.py:244-257 | a reclaim takes a row only under the very lock it saw; failing the run, and the two saves of a retry, ask nothing |
| WorkerFacts.OutsidersSay | platform/workflow/engine.py:227-241 | what a death loses, what a scan sees, and that a resume writes the status chosen before |
| Hazards.LateSuccessUnwindsUpwards | platform/workflow/engine.py:134-142 | a concrete interleaving in which a cancel inside a body makes compensation go upwards |
| Hazards.ZombieRunsTwice | platform/workflow/engine.py:103-106 | a concrete interleaving in which a reclaimed but live worker runs a body twice under one attempt number |
| Calendar.MonthsFollow | platform/automation/services.py:48-49 | the month after a month, and that its first day is that month's length later |
| Calendar.MonthTable | platform/automation/services.py:50-52 | the lengths of the twelve months in every year |
| Calendar.DayNumbers | platform/automation/services.py:41-44 | the day numbers of January of year 1 and of 1970 |
| Calendar.InstantsInOrder | platform/automation/services.py:259-259 | comparing instants is comparing dates and then times of day |
| Calendar.AddDaysCounts | platform/automation/services.py:41-44 | adding n days gives a valid date with the day number n higher |
| Calendar.AddDaysFailsIff | platform/automation/services.py:41-44 | adding days fails exactly past the last day a datetime can hold |
| Calendar.AddMonthShape | platform/automation/services.py:45-53 | a monthly advance is a valid date in the very next month, 28 to 31 days later, and fails only past the calendar |
| Calendar.MonthlyDrift | platform/automation/services.py:45-53 | after k monthly advances the month has moved by k and the day is the start day cut to the shortest month entered |
| Calendar.AdvanceMovesOn | platform/automation/services.py:40-54 | an advance keeps the time of day, is later by the cadence's days, and is nothing exactly for ONCE |
| Scheduling.After | platform/automation/services.py:97-265 | after every history: keys unique, firings in time order, and each rule's schedule beyond the finish of its firings |
| Scheduling.TickFiresOnce | platform/automation/services.py:118-134 | however crons, clicks, retries and deletions interleave, one due tick of a rule has at most one pipeline run |
| Scheduling.FiredTickNeverRecurs | platform/automation/services.py:237-242 | after a finish the rule is due only for a tick beyond that finish, never for one that fired, and a ONCE rule never |
| Scheduling.LoadedTicksGrow | platform/automation/services.py:259-265 | a cron that reads a rule after a finish reads a later tick |
| Scheduling.AutomationService.StartRule | platform/automation/services.py:97-133 | stubs and deleted rules are refused; otherwise the run of the key is found or created, and returned |
| Scheduling.AutomationService.OnPipelineFinished | platform/automation/events/subscribers.py:17-65 | a terminal event makes one record and moves the schedule on, and does neither for a deleted rule |
| Scheduling.AutomationService.RunRule | platform/automation/services.py:97-135 | a due rule's run is found or created and driven to its end; it raises exactly when that run is still open at the deadline |
| Scheduling.AutomationService.RunDue | platform/automation/services.py:255-265 | one cron invocation selects the rules due now and runs them in order until one raises, and reports whether any did; if none did, every rule due as it began has a run for its tick |
| Scheduling.AutomationService.RunSelected | platform/automation/services.py:262-265 | the selected rules run in order, up to one that raises |
| Scheduling.DueNowIs | platform/automation/services.py:259-264 | the due query selects every rule that is active, neither stub nor deleted, with a next run that has come, each once and with that tick, in row order, and no other |
| Scheduling.CompletedFiresAll | platform/automation/services.py:259-265 | an invocation that completes leaves a run for every tick that was due as it began |
| DueRules.FireSays | platform/automation/services.py:118-133 | firing for a tick creates a run unless the tick has one; a click always creates one; a new run is queued now and open |
| DueRules.RunOneSays | platform/automation/services.py:123-135 | after a rule was run its tick has a run, closed if it came to an end; it raises exactly if the run was given up at the deadline and is open |
| DueRules.FinishSays | platform/automation/events/subscribers.py:17-65 | a terminal event closes an open run now, makes one record, and moves last and next run on by the cadence, which turns a ONCE rule off; a closed run, or a deleted rule, is left alone |
| DueRules.AdvanceSays | platform/automation/services.py:40-54 | the next run of each cadence: a day, a week, the same day of the next month or its last, or none |
| DueRules.CronSays | platform/automation/services.py:259-265 | a cron reads a rule exactly when it is due, and fires the tick it read whatever has happened to the rule since |
| Scheduling.DrainFires | platform/automation/services.py:262-265 | an invocation that completes leaves no tick it selected unfired; one that raises has fired its ticks up to and including the one that raised |
| Lockout.BackoffBounds | platform/auth/services.py:52-57 | every lock lasts between base and cap, the first exactly the base, and a further failure never shortens it |
| Lockout.BackoffSays | platform/auth/services.py:52-57 | the wait is the base times the factor to the number of failures beyond the limit, in whole seconds, or the cap where that is no more |
| Lockout.RegisterShape | platform/auth/services.py:62-72 | a failure counts one up; a fresh counter lives its window, a full one its backoff |
| Lockout.RegisterSays | platform/auth/services.py:62-72 | count and expiry after a failure, with a live entry and without, below the limit and from it on |
| Lockout.AttemptSays | platform/auth/services.py:177-199 | when an attempt is refused, and what each outcome does to the counter: a login clears it |
| Lockout.AuthService.RegisterFailure | platform/auth/services.py:62-72 | the stored counter and its expiry after a failure |
| Lockout.AuthService.Login | platform/auth/services.py:177-204 | a locked account is refused without counting, a wrong password counts, a disabled account does not, a login clears |
| Lockout.FailuresBounded | platform/auth/services.py:52-84 | with serialised attempts and no login, an interval of length L holds at most MAX x (floor(L / min(window, base)) + 2) failures, and the count stays at most MAX |
| Lockout.LogIsFailures | platform/auth/services.py:193-195 | the log that bound speaks of has every recorded failure |
| LockoutRace.CountBoundedIffSerial | platform/auth/services.py:59-72 | with at most k attempts in flight the count stays at most MAX + k - 1, under every schedule and all sensible settings, if and only if k is 1; for larger k it has no bound |
| LockoutRace.NoBoundForTwo | platform/auth/services.py:62-72 | for every bound some schedule of two attempts in flight exceeds it |
| LockoutRace.SoloRegisters | platform/auth/services.py:59-72 | a worker alone does to the counter what one failure does |
| LockoutRace.OperationsSay | platform/auth/services.py:59-72 | the cache operations of an attempt one by one |
| FaceMatch.Identify | platform/auth/services.py:348-363 | the loop finds the earliest overall best, the best score of anyone else, and decides from the two |
| FaceMatch.AcceptedStandsOut | platform/auth/services.py:358-363 | a user is accepted exactly when one of their scores clears the threshold and beats every other user's by the margin, whatever the order |
| FaceMatch.AcceptedIsBest | platform/auth/services.py:358-363 | under any settings only the earliest best can be accepted, and is exactly if it clears the threshold and leads every other user by the margin |
| FaceMatch.OrderFreeIff | platform/auth/services.py:348-363 | the order of credentials never matters if and only if the margin is positive and the threshold not negative, or the threshold is out of reach |
| StorageKeys.CandidatesDistinct | platform/storage/services.py:49-51 | different numbers give different candidate keys |
| StorageKeys.CandidateIsNotKey | platform/storage/services.py:49-51 | a candidate's name is the numbered name, and it is never the key itself |
| StorageKeys.CandidateSays | platform/storage/services.py:48-51 | a candidate is the root, the components but the last, and the numbered last one |
| StorageKeys.PartsSplit | platform/storage/services.py:48-48 | the components of a path are the texts between its slashes, without empty ones and single dots |
| StorageKeys.RootSays | platform/storage/services.py:48-48 | the root of a path that begins with no slash, one, two, or more |
| StorageKeys.NumberedSays | platform/storage/services.py:49-51 | the number goes in front of the last dot, or to the end of a name with no dot inside it |
| StorageKeys.DecimalPlain | platform/storage/services.py:50-51 | numbers are decimal digits without leading zeros |
| Storage.StorageService.Dedupe | platform/storage/services.py:40-54 | the search loop returns what the specification says |
| Storage.DedupeContract | platform/storage/services.py:40-54 | a returned key is held by no visible live row; the call fails exactly when the key and all 100 candidates are taken, or a taken key names nothing |
| Storage.DedupeTakesFirst | platform/storage/services.py:46-53 | a free key is kept, and otherwise the result is the first candidate from 2 to 101 that is free |
| Storage.GivingUpNeedsManyRows | platform/storage/services.py:40-54 | it gives up only over at least 101 rows |
| Storage.StorageService.StoreFile | platform/storage/services.py:58-134 | byte store, table and result of an upload, refusals before and after the put included |
| Storage.RefusedUpload | platform/storage/services.py:76-106 | which uploads are refused before anything is written, and why |
| Storage.StoredUpload | platform/storage/services.py:108-134 | any other upload puts its bytes under its key and changes no others; then the row is added with its tenant, key, digest and size, or refused if any row has the key |
| Storage.StorageService.DeleteFile | platform/storage/services.py:144-149 | the bytes go and the row is marked |
| Storage.DeletedFile | platform/storage/services.py:144-149 | the bytes under the key are gone and the row is marked; all other bytes and rows are as they were |
| Storage.StorageService.VerifyIntegrity | platform/storage/services.py:151-152 | in an intact store every live file verifies; a false verdict means the bytes are none that have the recorded digest, so not those stored; missing bytes are reported |
| Storage.StoreIntactIff | platform/storage/services.py:108-134 | an upload keeps every live file intact if and only if it does not land on a live row's key with bytes of another digest |
| Storage.ClashIsForeign | platform/storage/services.py:46-46 | with a caller's key, the row that is overwritten belongs to another tenant than the current one |
| TenantFiles.FilesStayIntact | platform/storage/services.py:40-152 | over every history whose callers keep to their own tenant's directory and whose generated keys differ, creations refused by the unique key included, every live file's bytes hash to its digest |
| TenantFiles.FilesOpenAsStored | platform/storage/services.py:116-137 | in every such history a live file opens with exactly the bytes its store was given |
| TenantFiles.CandidateStaysBelow | platform/storage/services.py:48-51 | a candidate for a path below a slug's directory stays below it |
| Storage.OpenReturnsStored | platform/storage/services.py:116-137 | over every history in which no upload lands on a live row's key a live file opens with exactly the bytes stored, whatever happened since |
| Storage.ForeignKeyBreaksIntegrity | platform/storage/services.py:114-117 | a concrete table and upload that break the integrity of another tenant's file |
| AiGateway.TriesShape | platform/ai/services.py:171-185 | a completion stops at the first text, at the first failure that is not retryable, or at the last try, and not before |
| AiGateway.AIService.CompleteWithRetry | platform/ai/services.py:171-185 | the calls made and the reply returned by the retry loop |
| AiGateway.AIService.EnforceRateLimit | platform/ai/services.py:187-199 | counter, expiry and verdict of one rate check |
| AiGateway.AIService.RunRound | platform/ai/services.py:74-166 | one model round: check, model, cache, calls, cache write, ledger row, in that order |
| AiGateway.AIService.Generate | platform/ai/services.py:42-166 | the whole call with its one fallback |
| AiGateway.CallsBounded | platform/ai/services.py:118-150 | a call makes at most 2 x (1 + retries) provider calls, each with the texts and images asked for and the chosen model or the fallback; a call that is not accepted makes none and changes nothing |
| AiGateway.AnswerIsReply | platform/ai/services.py:117-166 | an answer not from the cache is the text, model and provider of the reply to the last provider call, and the last ledger row has that model, provider and token counts |
| AiGateway.CachedRound | platform/ai/services.py:77-104 | a round answers from the cache exactly when the ask allows it and a live entry is there, with its text, a zero-token row and no provider call |
| AiGateway.RefusedRound | platform/ai/services.py:74-75 | a round is refused exactly by the rate check or for an unknown model |
| AiGateway.PreparedSays | platform/ai/services.py:60-72 | which asks are accepted, and which model and texts they are asked with |
| AiGateway.FallsBack | platform/ai/services.py:130-150 | a failed model is followed by a round of the fallback with the same texts and images, whose end is the end of the call |
| AiGateway.GenerateShape | platform/ai/services.py:74-166 | calls go to the model and then the fallback; each passed check has one ledger row unless its model is unknown; a row reports success exactly when it belongs to the answer |
| AiGateway.LastReplyFails | platform/ai/services.py:171-185 | a completion ends in failure exactly when its replies are failures to be retried followed by one that must not be, or that uses up the tries |
| AiGateway.GivesUpIff | platform/ai/services.py:118-133 | an accepted call ends in a conflict exactly when the replies make its model fail and there is no other fallback, no user text to hand on, or the replies after those make the fallback fail too |
| AiCache.CacheReplays | platform/ai/services.py:77-104 | over every history with a steady clock, once a text was cached every later call for the same model, texts and images before it expires that passes the rate check gets that text with no provider call, whatever was asked in between |
| AiCache.CachedAnswerIsGiven | platform/ai/services.py:77-104 | over every history a cached answer is a text given to a request with the same joined bytes, as long as the digest does not collide |
| AiCache.CachedAnswerIsOwn | platform/ai/services.py:77-104 | if no text handed in contains a NUL either, it is a text a provider gave in reply to the very same model, texts and images |
| AiCache.HeardIsReplied | platform/ai/services.py:117-166 | over every history each text noted for a request is a text some provider call for that request was answered with |
| AiCache.NulsCollide | platform/ai/services.py:83-88 | two different requests with a NUL in a text that share one cache key |
| AiGateway.LedgerAccounts | platform/ai/services.py:74-166 | over every history the ledger has one row per round let through with a known model |
| AiGateway.RateLimitHolds | platform/ai/services.py:187-199 | over every history exactly the first `limit` rounds of a tenant in one hour pass, fallback rounds counted |
| AiGateway.AlwaysTimed | platform/ai/services.py:187-191 | each round counts in the clock hour it happens in, and without a positive limit every round passes |
| AiGateway.RacingPasses | platform/ai/services.py:192-199 | with adds and increments of several processes interleaved, exactly the first `limit` that counted have passed |
| Roles.VisitedIffReached | platform/roles/models.py:55-64 | on every parent graph the traversal visits exactly the roles reachable by parent links |
| Roles.Inherit | platform/roles/models.py:55-64 | one level of the traversal: what it adds to the shared set and the codes of what it added; it ends on cycles |
| Roles.PermissionCodes | platform/roles/models.py:55-64 | a role's codes are the permissions of exactly the roles reachable from it |
| Roles.EffectivePermissionCodes | platform/roles/services.py:13-23 | a user's codes are the union over the live roles with an assignment row |
| Roles.RevocationKeepsCodes | platform/roles/services.py:52-54 | marking the rows of a revoked assignment leaves every user's effective codes as they were |
| Metrics.AlwaysExact | platform/shared/metrics.py:32-39 | under every interleaving each counter is the sum of the deltas of the increments that have returned |
| Metrics.SummaryDict | platform/shared/metrics.py:42-57 | the totals per class, their sum and the two durations are read from the counters |
| Metrics.CountersAreExact | platform/shared/metrics.py:20-39 | at every moment each request whose first increment returned counts once, in its own class, and the durations are those of the calls that got that far |
| Metrics.LabelsSay | platform/shared/metrics.py:20-26 | the label of a request: its method or OTHER, its hundreds or 5xx |
| Metrics.CellsAreExact | platform/shared/metrics.py:20-39 | at every moment each counter is the number of requests with its method and class whose first increment returned |
| Metrics.MovesSay | platform/shared/metrics.py:32-39 | increment, add and second increment: when each applies and what it stores |
| Metrics.CallsProgress | platform/shared/metrics.py:32-39 | a call is over after at most nine cache operations, whatever others do |
| Metrics.SummaryIsExact | platform/shared/metrics.py:42-57 | the summary's three reads, at three moments of one interleaving, each say what had returned by then |
| Metrics.QuietSummary | platform/shared/metrics.py:42-57 | read while no call is under way, they agree: per class the requests of that class, in all as many as the durations count, and the sum of all durations |
| Metrics.ClassesPartition | platform/shared/metrics.py:24-26 | the five status classes add up to the number of requests |

## Left out

- Ledger.ExecutionBudget: the bound reads max(1, max_attempts) where max_attempts is below 1, because the code runs such a step once.
- LockoutRace.RacingCountBounded: a sufficient case only; the exact condition on k alone is LockoutRace.CountBoundedIffSerial.
- Storage.AlwaysIntact: assumes of each upload that it lands on no live row's key; TenantFiles.FilesStayIntact derives that from the callers' keys.
- Metrics.CallsProgress: bounds the operations of one call; that every call is scheduled again is not said.
- Engine.Store.Start: what ticks between its insertions do is not in its contract but in Creation.EndsShortIff.
- UndoOrder.UndoGoesDown: one direction; a late success need not turn the order around.
- Draining.TicksDrain: ticks follow each other; ticks that overlap are covered by the interleaving theorems on one run.
- Metrics.SummaryIsExact: the rounding of the average is not modelled.
- Unregistered pipelines, whose lookup raises, and registration itself.
- The optional tenant filter of `tick_all` and `run_due`, and tenant scoping of the engine's tables.
- Error texts, actors, versions, source references and the started and finished times of steps.
- Automation record contents: collected items, packaged files, reports; rule validation.
- Face lockout per address, which uses the same counter as the login lockout.
- `safe_filename`, content inspection (its verdict is a parameter), scan results, signed URLs, and the providers' own treatment of keys.
- Prompt rendering (its result is a parameter), costs, latencies and use-case names of ledger rows.
- Role creation and assignment, prometheus text, upper-casing of method names.
- Statistics, catalogues, serializers, views, permissions on endpoints, and all user interface: reading and wiring only.
