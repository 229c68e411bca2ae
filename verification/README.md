# HealthCheck: a verified model of its scheduler, store and reports

HealthCheck runs configured checks again and again, records each result, and
reports health per service and project. This project models that behaviour in
Dafny and proves what its design promises: fixed-delay scheduling without
self-overlap or catch-up bursts, clean shutdown, exactly-once recording, a result
store whose text-sorted queries are chronological, and two-level status aggregation.

`dafny verify dfyconfig.toml` checks the whole project.

## How it is organised

| file | what it models |
|---|---|
| `Durations.dfy` | bounded durations with nanosecond carry, and the clamped, saturating interval |
| `Domain.dfy` | checks, results, timestamps, and the validating constructors |
| `Text.dfy`, `UuidText.dfy`, `Rfc3339.dfy`, `Mapping.dfy` | text comparison, UUID and timestamp text with every spelling the decoders read, the column codecs |
| `Calendar.dfy` | the Gregorian calendar in closed form; text order is time order; the instant a timestamp text denotes |
| `Ordering.dfy`, `Results.dfy` | ORDER BY, the result table and the in-memory sink |
| `Database.dfy` | the checks and results tables with their constraints |
| `Reporting.dfy` | status aggregation and the reports |
| `SchedulerState.dfy` | the table of scheduled checks and its three operations |
| `World.dfy` | the scheduler as a transition system: any number of runs over one table |
| `Exclusion.dfy` | the inductive invariant; no self-overlap |
| `FixedDelay.dfy` | timing of whole traces, in the logs of checks |
| `StepTiming.dfy` | the same told by steps: what tasks are joined with, when executions start |
| `Accounting.dfy` | conservation of executions, exactly-once recording |
| `Drain.dfy` | confluence of joins, shutdown, failures, which checks a tick starts, when due times are kept |
| `Progress.dfy` | which steps can always happen; a drain can always come to its end |
| `DrainOrder.dfy` | the order in which tasks end and are joined is immaterial |
| `Counterexamples.dfy` | concrete traces on which documented promises fail |
| `NonInterference.dfy` | one check's view of a trace |
| `Runtime.dfy` | the event loop and its sink as code, refining the transition system |
| `Application.dfy` | creating, enabling and monitoring checks |

In the transition system a task is claimed and spawned in one step, then executes,
records, finishes with a time stamp (or panics before recording), and is joined by its run.
A run may also be dropped, and it panics when it joins a task whose completion plus
interval overflows the clock; either way its other tasks are never joined. A step
carries every choice the environment makes: times, results, sink outcomes, which task
ends, which run acts. A trace is any sequence of steps that can happen, so a statement
about all traces covers every `select!` choice, tick schedule, join order and number of
concurrent runs sharing one scheduler. A disciplined trace
(`SafeTrace`) never registers an enabled check whose id is in flight. Each check's
log of registrations, starts, completions and failures is auxiliary: no step
depends on it except to number executions.

`RunUntilShutdown` is the event loop written as a method. It receives a script, the
interleaving of the run with its environment until the run ends; it acts on its own
steps, lets the environment take the others, and is proved to end in the state the script
prescribes. For a sink that may answer anything the scripts are exactly the disciplined
traces that stop when the run ends (`ScriptsAreEndingTraces`), so every theorem about
traces holds of the loop. With the database as the sink, the script may report success
only where the database accepts the result, and the table of results grows as the script says.

## Where code and documentation differ

- The architecture notes say that fixed delay naturally prevents overlapping
  executions of one check (docs/architecture.md:48). Registering a check again while
  it is in flight resets its running flag, and the next tick starts it a second
  time. `OverlapExactly` gives the exact condition, `ReRegistrationCanOverlap` a
  concrete trace. A monitor run never does this (`PrivateTrace`).
- The same notes say the next run becomes due after the previous one completes. A
  task that panics never completes: its check stays marked running and, on every
  disciplined trace that does not register it again, is never claimed again
  (`FailedIsNeverClaimed`; `PanicIsFinal` is a concrete trace).
- The run's documentation promises that the next due time is completion time plus
  `check.interval_seconds` (crates/server/src/scheduler/runtime.rs:74-75). The code clamps
  the interval to 2^32 - 1 units and adds it on a bounded clock. A finished execution sets
  the documented due time if and only if that time is within the clock's range and the
  interval is neither clamped nor saturated (`DocumentedDueExactly`; `DocumentedDelayHolds`
  for whole traces). `ClampedIntervalRestartsEarly` is a trace on which a check of 2^32
  seconds restarts a second early. By the clamped interval the delay is kept if and only if
  the addition does not overflow (`DelayKeptExactly`); otherwise the flag is already cleared
  when it panics, and any other run restarts the check at its next tick
  (`OverflowRestartsAtOnce`; `OverflowRestartsEarly` is a concrete trace). Under the default
  unit this cannot happen before the clock is within 2^32 - 1 seconds of its limit
  (`DefaultUnitNeverPanics`).
- Registering an idle check again makes it due at once, before completion plus interval,
  which `FixedDelayHolds` therefore leaves out (`ReRegistrationRestartsEarly` is a concrete
  trace). A monitor run never does this.
- A saturated interval is never usable on a clock whose range is below the largest
  duration, because adding it overflows and panics (`SaturatedDelayNeverFits`;
  `SaturationIsUnusable` is a concrete case).
- The latest result is the newest by `checked_at`, not the last inserted. The two agree
  if and only if the last inserted result of the check follows all its earlier ones in
  (time, id) order (`LatestRefinesSink`): `ClockStepsBack` shows two results for which they
  differ, `EarlierDisorderIsHarmless` three out of order for which they agree. All recent
  queries agree with the order of insertion if and only if every result follows all the
  earlier ones (`RecentRefinesSink`).
- The notes say a service is unknown if an enabled check has no result
  (docs/architecture.md:95). That holds only if no enabled check is degraded or unhealthy
  (`ServiceStatusRules`; `UnhealthyHidesUnknown` is a concrete case).
- A check whose first result cannot be stored makes its creation fail but stays in
  the database, enabled, and the next reload runs it (`CreateHttpCheck`; `LostFirstResult` is
  the concrete case of a database that fails between the two inserts).

## Model

| member | source | states |
|---|---|---|
| Exclusion.NoSelfOverlap | crates/server/src/scheduler/runtime.rs:76-164 | for every disciplined trace of any number of runs, at most one task per check is in flight, and a check's running flag means exactly: enabled, and in flight or failed since its registration; dropped and panicking runs included |
| Exclusion.TraceKeepsInv | crates/server/src/scheduler/runtime.rs:76-164 | every state of every disciplined trace satisfies the invariant tying flags, due times, tasks, time stamps and logs together |
| Exclusion.StepKeepsInv | crates/server/src/scheduler/state.rs:21-57 | each step, by whichever run or task, preserves that invariant |
| Exclusion.OverlapExactly | crates/server/src/scheduler/state.rs:21-24 | registering a check and then ticking makes two of its tasks overlap if and only if the check is enabled and in flight |
| Exclusion.ReRegistrationCanOverlap | crates/server/src/scheduler/state.rs:69-77 | a concrete trace in which a re-registered check runs twice at once |
| Exclusion.ClaimedWasIdle | crates/server/src/scheduler/state.rs:29-37 | a claimed check had no task in flight and had not failed, and its start comes no earlier than its due time |
| Exclusion.JoinedLog | crates/server/src/scheduler/state.rs:52-55 | after a join, overflowing or not, no task of that check is in flight, and what happened follows its start in the log |
| FixedDelay.FixedDelayHolds | crates/server/src/scheduler/runtime.rs:72-75 | on every disciplined trace, of two consecutive executions of a check that is not registered and overflows nowhere between, the second starts no earlier than the completion of the first plus the clamped interval, and no execution completes before it starts |
| FixedDelay.DocumentedDelayHolds | crates/server/src/scheduler/runtime.rs:74-75 | where the interval is neither clamped nor saturated, that delay is completion plus the configured interval |
| FixedDelay.NoCatchUpBursts | crates/server/src/scheduler/state.rs:26-56 | on every disciplined trace, if executions of a check start at n positions of its log within a window of length T, then (n - 1) * I <= T, however irregular the ticks |
| FixedDelay.StartsAreSpaced | crates/server/src/scheduler/state.rs:54-55 | a start that comes n starts after another comes at least n intervals after it |
| FixedDelay.DueIncreases | crates/server/src/scheduler/state.rs:52-55 | with a positive interval the due times set at a check's completions strictly increase |
| StepTiming.FixedDelayOnSteps | crates/server/src/scheduler/runtime.rs:72-75 | on every disciplined trace of any number of runs, after a task's Finish step at `done`, with no registration of its check and no overflow since, the check starts again no earlier than `done` plus the interval in force, and each later start a whole interval after the one before |
| StepTiming.StartsWaitForFinish | crates/server/src/scheduler/state.rs:52-55 | the same from any state that satisfies the invariant |
| StepTiming.NoBurstsOnSteps | crates/server/src/scheduler/state.rs:26-56 | n starting ticks later at least n whole intervals have passed, however late or irregular the ticks are |
| StepTiming.OutcomesHaveCauses | crates/server/src/scheduler/runtime.rs:126-136 | whatever a task is joined with, or overflows with, was brought about by its own Finish step at that very instant or by its own panic |
| StepTiming.ReportsHaveCauses | crates/server/src/scheduler/runtime.rs:129-134 | whether a joined task counts as recorded is what the sink answered to it |
| Drain.DrainIsConfluent | crates/server/src/scheduler/runtime.rs:106-116 | the same consecutive joins in any permutation, failures included and by whichever runs, can happen and lead to the same table, stats, logs and sink |
| DrainOrder.OrderIsImmaterial | crates/server/src/scheduler/runtime.rs:106-116 | two traces in which every check's task goes through the same steps, interleaved in any way with those of others, lead to the same table, tasks, stats, logs and clock, and to the same results per check |
| Drain.JoinsCommute | crates/server/src/scheduler/runtime.rs:140-164 | two consecutive joins can be exchanged without changing the result |
| Drain.DrainClaimsNothing | crates/server/src/scheduler/runtime.rs:88-116 | a run that drains or is gone spawns nothing more whatever else happens, and each task it takes shrinks its join set by one |
| Drain.GoneRunStrandsItsTasks | crates/server/src/scheduler/runtime.rs:76-83 | a dropped or panicked run joins nothing any more: its tasks stay in flight for ever |
| Drain.FlagsAfterReturn | crates/server/src/scheduler/runtime.rs:159-161 | with nothing in flight, the enabled checks still marked running are exactly those whose last task failed |
| Drain.FailedIsNeverClaimed | crates/server/src/scheduler/runtime.rs:159-161 | a check whose task failed is never claimed again on any disciplined trace that does not register it |
| Drain.FailedLastExactly | crates/server/src/scheduler/runtime.rs:159-161 | a check that keeps its registration has failed last if and only if a failed task of it has been joined |
| Counterexamples.PanicIsFinal | crates/server/src/scheduler/runtime.rs:159-161 | a concrete trace with a panic, after which the check stays marked running and nothing more happens to it |
| Drain.TickStartsExactlyTheDue | crates/server/src/scheduler/state.rs:29-37 | a tick starts a check if and only if it is enabled, not running and due, exactly once, leaves the others alone, and leaves nothing due |
| Drain.FirstDueTickStarts | crates/server/src/scheduler/runtime.rs:91-93 | an idle enabled check starts at the first tick at or after its due time, whatever other steps come before |
| Drain.RestartsAtFirstDueTick | crates/server/src/scheduler/state.rs:26-57 | after that join an enabled check starts again at the first tick at least one interval after the completion |
| Drain.DelayKeptExactly | crates/server/src/scheduler/state.rs:52-55 | once a finished execution of an enabled check has left its run, the check is never due before completion plus the clamped interval if and only if that sum does not overflow the clock |
| Drain.DocumentedDueExactly | crates/server/src/scheduler/runtime.rs:74-75 | the due time set is completion plus interval_seconds if and only if that is within the clock's range and the interval is neither clamped nor saturated; and exactly when no start can come before it |
| Counterexamples.ClampedIntervalRestartsEarly | crates/server/src/scheduler/state.rs:80-83 | a concrete trace on which a check of 2^32 seconds starts again one second before completion plus interval_seconds |
| Counterexamples.OverflowRestartsEarly | crates/server/src/scheduler/state.rs:52-55 | a concrete trace on which an addition overflows and another run starts the check again in the instant of its completion |
| Counterexamples.ReRegistrationRestartsEarly | crates/server/src/scheduler/state.rs:21-24 | a concrete disciplined trace on which a completed check that is registered again starts at once |
| Drain.OverflowRestartsAtOnce | crates/server/src/scheduler/state.rs:52-55 | after an overflowing completion the very next tick of any other run starts the check again |
| Drain.GoneHasCause | crates/server/src/scheduler/runtime.rs:94-114 | a run is gone only because it was dropped or because one of its own completions overflowed |
| Progress.DrainCanFinish | crates/server/src/scheduler/runtime.rs:106-116 | from every reachable state of a draining run there is a way on to its return or its panic |
| Progress.TaskCanEnd | crates/server/src/scheduler/runtime.rs:126-136 | every task in flight can end, an executing one with either answer of the sink |
| Progress.TasksAreFree | crates/server/src/scheduler/runtime.rs:126-136 | the model forbids the environment nothing: an executing task may panic or record any result of its check with either answer, a recorded one may finish at any time, and an ended one leaves its run unless that is gone |
| Progress.RunsAreFree | crates/server/src/scheduler/runtime.rs:83-104 | registrations and new runs can come at any time; a run in its main loop may tick, shut down or be dropped |
| Drain.DefaultUnitNeverPanics | crates/server/src/scheduler/runtime.rs:22-29 | under the one-second unit no run panics on any disciplined trace whose clock ends 2^32 - 1 seconds below the limit |
| Drain.DefaultUnitNeverOverflows | crates/server/src/scheduler/runtime.rs:26 | under the one-second unit no completion overflows the clock in any reachable state whose clock stays 2^32 - 1 seconds below the limit |
| Accounting.ExecutionsAreConserved | crates/server/src/scheduler/runtime.rs:83-116 | in every reachable state each run that is not gone has spawned exactly what it completed, saw fail or has in flight, and sink errors are among its completions |
| Accounting.RecordedExactlyOnce | crates/server/src/scheduler/runtime.rs:126-136 | a run with nothing in flight has exactly completed - sink_errors entries in the sink, each of another execution |
| Accounting.SinkFollowsExecutions | crates/server/src/scheduler/runtime.rs:126-136 | in every reachable state no execution is recorded twice, and each check's entries carry its id and follow its execution order |
| Accounting.SinkErrorsAreRefusals | crates/server/src/scheduler/runtime.rs:153-157 | a run's sink errors are the refusals of its results by the sink, as far as they have been joined |
| Accounting.StepKeepsAccounts | crates/server/src/scheduler/runtime.rs:146-163 | each step preserves the balance of every run and the order of the sink |
| NonInterference.ChecksDoNotInterfere | crates/server/src/scheduler/state.rs:29-55 | projecting any disciplined trace onto one check gives a disciplined trace of that check alone, with the same ticks, that leaves it the same entry, tasks, log and results; of another check's overflow it sees only that the run is gone |
| NonInterference.SameProjectionSameLog | crates/server/src/scheduler/runtime.rs:140-164 | two traces that agree on the steps of one check give it the same log and the same recorded results |
| SchedulerStates.SchedulerState.Register | crates/server/src/scheduler/state.rs:21-24 | replaces the entry by an idle one that is due at once |
| SchedulerStates.SchedulerState.ClaimDueChecks | crates/server/src/scheduler/state.rs:26-40 | in any visiting order, marks exactly the due entries, returns each of them once, and leaves none due at that instant |
| SchedulerStates.SchedulerState.Complete | crates/server/src/scheduler/state.rs:42-56 | clears the flag and sets the next due time, ignores unknown ids, and overflows exactly when completion plus interval passes the clock's limit |
| Durations.CheckedMulIsExact | crates/server/src/scheduler/state.rs:80-83 | multiplying seconds and nanoseconds with carry is exact, and refused only when the product exceeds the largest duration |
| Durations.IntervalIsExactOrSaturates | crates/server/src/scheduler/state.rs:80-83 | the interval is min(min(n, 2^32 - 1) * unit, Duration::MAX) |
| Durations.IntervalIsDocumented | crates/server/src/scheduler/state.rs:80-83 | the computed delay is at most interval_seconds units, and equal to it if and only if it is neither clamped nor saturated |
| Durations.IntervalIsMonotone | crates/server/src/scheduler/state.rs:80-83 | a longer configured interval never gives a shorter delay |
| Durations.IntervalIsPositive | crates/core/src/check.rs:28-30 | a validated check has a positive delay under a positive unit |
| Durations.DefaultUnitIsExact | crates/server/src/scheduler/runtime.rs:26 | under the default unit the delay is the clamped number of seconds |
| Durations.SaturatedDelayNeverFits | crates/server/src/scheduler/state.rs:54-55 | on a clock with a smaller range than Duration::MAX, adding the interval succeeds exactly when the unsaturated sum fits |
| Durations.SaturationIsUnusable | crates/server/src/scheduler/state.rs:80-83 | a concrete unit and interval that saturate, which no smaller clock can add |
| Durations.IntervalsInNumbers | crates/server/src/scheduler/state.rs:80-83 | in nanoseconds: a plain interval, the clamp, a carry and the cut-off |
| Runtime.Scheduler.Register | crates/server/src/scheduler/runtime.rs:62-64 | the shared table takes the registration step |
| Runtime.Scheduler.SpawnDueChecks | crates/server/src/scheduler/runtime.rs:119-138 | claims the due checks and adds exactly their tasks to the run's join set |
| Runtime.Scheduler.HandleTaskCompletion | crates/server/src/scheduler/runtime.rs:140-164 | updates the table and the stats as the outcome demands: completion, sink error or failure; or panics, exactly when the addition overflows, with the flag already cleared |
| Runtime.Scheduler.RecordResult | crates/server/src/results/sqlite.rs:19-24 | a result handed to the database is stored exactly when the step says so, which it may only if no constraint refuses it; the table then holds what the trace has recorded |
| Runtime.Scheduler.JoinNext | crates/server/src/scheduler/runtime.rs:94-102 | taking an ended task is the join or the overflow step of the transition system, and without overflow keeps join set and stats those of the run |
| Runtime.Scheduler.Environment | crates/server/src/scheduler/runtime.rs:44 | what other runs, tasks and registrations do to the shared table and the sink leaves this run's join set and stats alone |
| Runtime.Scheduler.Turn | crates/server/src/scheduler/runtime.rs:87-103 | one turn of the loop follows the step that happened, keeping join set and stats those of the run |
| Runtime.Scheduler.Serve | crates/server/src/scheduler/runtime.rs:86-104 | the loop follows the trace up to and including its shutdown signal |
| Runtime.Scheduler.JoinAll | crates/server/src/scheduler/runtime.rs:106-114 | the drain only joins, terminates, and ends with an empty join set unless the run panics or is dropped |
| Runtime.ScriptsAreEndingTraces | crates/server/src/scheduler/runtime.rs:76-117 | the scripts of the loop are exactly the disciplined traces that stop when the run ends |
| Runtime.ReturnedRunIsFinal | crates/server/src/scheduler/runtime.rs:106-116 | after a run has drained, no later step of any other run or task changes its stats or gives it a task |
| Runtime.Scheduler.RunUntilShutdown | crates/server/src/scheduler/runtime.rs:76-117 | for every interleaving with its environment, the run ends in the state of the trace; unless it is gone it returns that run's stats with nothing in flight, has spawned completions plus failures, has recorded completions minus sink errors, and its sink errors are the sink's refusals; if no other run shares the scheduler, the checks still marked running are the enabled ones that failed last |
| Rfc3339.TimestampTextKeepsOrder | crates/server/src/persistence/mapping.rs:22-24 | comparing encoded timestamps as text is comparing them chronologically |
| Calendar.TextOrderIsTimeOrder | crates/server/src/persistence/mapping.rs:22-24 | comparing encoded timestamps as text is comparing points on the time line, leap seconds included, and without them elapsed nanoseconds |
| Calendar.EarlierIsSooner | crates/server/src/persistence/result_repository.rs:46 | the order on calendar fields is the order of the instants they denote |
| Calendar.TimestampDecodesExactly | crates/server/src/persistence/mapping.rs:26-37 | a text decodes to a timestamp if and only if it spells, with any separator, fraction and offset of the grammar, a date-time that denotes that instant |
| Calendar.ValidDatesAreGregorian | crates/server/src/persistence/mapping.rs:30 | which fields make a date and time, with month lengths and the leap rule in closed form, and second 60 allowed |
| Calendar.DayNumberIsGregorian | crates/server/src/persistence/mapping.rs:30-31 | the day number that places a date on the time line, in closed form |
| Rfc3339.TimestampShape | crates/server/src/persistence/mapping.rs:22-24 | the written text piece by piece: padded numbers, their separators, nine fraction digits and Z |
| Rfc3339.SpellingShape | crates/server/src/persistence/mapping.rs:30 | every date-time of the grammar piece by piece |
| Rfc3339.FractionMeans | crates/server/src/persistence/mapping.rs:30 | a fraction of at most nine digits is that many tenths, hundredths and so on, exactly |
| Rfc3339.LongFractionIsCut | crates/server/src/persistence/mapping.rs:30 | digits beyond the ninth change nothing |
| Rfc3339.OffsetReads | crates/server/src/persistence/mapping.rs:30 | an offset is a plus, a hyphen or U+2212, two digits up to 23, a colon and two digits up to 59, and nothing beyond |
| Rfc3339.ZonesRead | crates/server/src/persistence/mapping.rs:30 | concrete zones: Z in either case and the largest offsets |
| Rfc3339.ZonesRefused | crates/server/src/persistence/mapping.rs:30 | concrete offsets that are too large |
| Rfc3339.EastExample | crates/server/src/persistence/mapping.rs:30-31 | a concrete text with an offset east of Greenwich and half a second |
| Rfc3339.WestExample | crates/server/src/persistence/mapping.rs:30-31 | a concrete text with an offset west of Greenwich that leads into the next month |
| Rfc3339.TimestampParsesBack | crates/server/src/persistence/mapping.rs:22-37 | a written timestamp is read back unchanged |
| Rfc3339.SpellingRoundTrip | crates/server/src/persistence/mapping.rs:26-37 | the reader accepts exactly the date-times of the grammar and knows each part of what it reads |
| Calendar.UtcKeepsInstant | crates/server/src/persistence/mapping.rs:31 | converting to UTC keeps the instant, and fails only outside the years 0 to 9999 |
| UuidText.UuidTextKeepsOrder | crates/server/src/persistence/mapping.rs:8-10 | comparing UUID text is comparing the 128-bit values |
| UuidText.UuidRoundTrip | crates/server/src/persistence/mapping.rs:8-20 | a printed UUID parses back to itself |
| UuidText.UuidDecodesExactly | crates/server/src/persistence/mapping.rs:12-20 | a text decodes to a UUID if and only if it is one of its spellings: its digits in either case, plain, hyphenated, in braces or as a URN |
| UuidText.SpellingsRead | crates/server/src/persistence/mapping.rs:12-20 | plain digits, braces and the URN prefix are read |
| Text.PrintKeepsOrder | crates/server/src/persistence/mapping.rs:8-24 | fixed-width numbers compare as text like numbers, in both directions |
| Text.DigitsAreLowerCase | crates/server/src/persistence/mapping.rs:8-10 | digits are written in lower case |
| Text.TextOrderIsTotal | crates/server/src/persistence/result_repository.rs:46 | two different texts compare in one way or the other |
| Text.TextOrderIsLexicographic | crates/server/src/persistence/result_repository.rs:46 | comparing as the database does: the first character that differs decides, and a proper prefix comes first |
| Mapping.CheckRoundTrip | crates/server/src/persistence/mapping.rs:76-148 | a check is accepted exactly when interval and timeout fit a signed column, and reads back unchanged exactly when the constructors could have built it |
| Mapping.ResultRoundTrip | crates/server/src/persistence/mapping.rs:150-159 | a result is accepted exactly when its duration fits, and reads back unchanged |
| Mapping.RefusedChecks | crates/server/src/persistence/mapping.rs:39-44 | which error a check beyond the signed columns gives, and for which field: the interval's first |
| Mapping.ReadableChecks | crates/server/src/persistence/mapping.rs:133-148 | a row is read as a check if and only if its ids, creation time and kind can be read, its URL is not blank, its status is 100 to 599, and interval and timeout are positive |
| Mapping.ReadableResults | crates/server/src/persistence/mapping.rs:150-159 | a row is read as a result if and only if its ids and time can be read, its status is one of the stored texts, and its duration is not negative |
| Mapping.CorruptChecks | crates/server/src/persistence/mapping.rs:133-148 | a check row that cannot be read gives the error of its first corrupt column, with that column's name and value, the domain's errors last |
| Mapping.CorruptKinds | crates/server/src/persistence/mapping.rs:92-112 | for the kind: an unknown name, then a status that is no 16-bit number, then a blank URL, then a status outside 100 to 599 |
| Mapping.CorruptResults | crates/server/src/persistence/mapping.rs:150-159 | a result row that cannot be read gives the error of its first corrupt column, with that column's name and value |
| Mapping.StatusTexts | crates/server/src/persistence/mapping.rs:50-74 | the four stored status texts, each of which is read as its status and nothing else as any |
| Domain.ConstructorsValidate | crates/core/src/check.rs:22-105 | the constructors accept exactly the inputs that make a valid check and change only the whitespace around the URL |
| Domain.TrimIsIdempotent | crates/core/src/check.rs:89 | trimming leaves exactly the trimmed texts alone and is idempotent |
| Domain.TrimCutsWhitespace | crates/core/src/check.rs:89 | trimming cuts off characters with the White_Space property at both ends and nothing else |
| Domain.BlankIsTrimmedAway | crates/core/src/check.rs:89-93 | a URL is empty after trimming if and only if all its characters have the White_Space property |
| Domain.PrintableEndsAreKept | crates/core/src/check.rs:89 | a text that begins and ends with printing ASCII characters is left alone |
| Domain.ConstructorErrors | crates/core/src/check.rs:28-99 | which error is answered: for a blank URL first, then for the status, the interval and the timeout |
| Ordering.OrderByIsDetermined | crates/server/src/persistence/result_repository.rs:46 | any ordered answer over rows without ties is the one modelled, whatever sorts it |
| Ordering.SortMap | crates/server/src/persistence/result_repository.rs:65-66 | sorting encoded values is encoding the sorted values when the encoding keeps the order |
| Results.SelectIsChronological | crates/server/src/persistence/result_repository.rs:42-48 | the text-sorted selection of a check's rows is its results sorted by instant and UUID |
| Results.QueriesAreChronological | crates/server/src/persistence/result_repository.rs:38-74 | latest and recent queries return the newest results in order, and never fail to decode |
| Results.RecentRefinesSink | crates/server/src/persistence/result_repository.rs:56-74 | for any interleaving, the recent queries equal the reversed tail of the sink's list for every limit if and only if the check's results came in (time, id) order |
| Results.LatestRefinesSink | crates/server/src/persistence/result_repository.rs:38-54 | for any interleaving, the latest query answers the last inserted result of the check if and only if that result follows all its earlier ones in (time, id) order |
| Results.EarlierDisorderIsHarmless | crates/server/src/persistence/result_repository.rs:38-54 | three results out of order, the last of them the newest, for which the latest query is still the last inserted |
| Results.IncreasingTimesRefineSink | crates/server/src/results/memory.rs:24-53 | with strictly increasing times, the latest query is the sink's reverse scan and the recent query its reversed tail |
| Results.ClockStepsBack | crates/server/src/persistence/result_repository.rs:38-54 | two results whose times step back, for which the query answers the first and the sink the second |
| Results.LargerIdWins | crates/server/src/persistence/result_repository.rs:46 | of two results at the same time the latest is the one with the larger id, in whatever order they came |
| Results.LatestIsLastOfCheck | crates/server/src/results/memory.rs:34-42 | the sink's reverse scan finds the last of the check's own results |
| Results.InMemoryResultSink.Record | crates/server/src/results/memory.rs:50-53 | appends to the list of all results and to the list of its check, becomes the latest of its check, leaves every other check's answers as they were, and succeeds |
| Results.InMemoryResultSink.Clear | crates/server/src/results/memory.rs:44-46 | afterwards there are no results, none of any check, and no latest one |
| Databases.Database.InsertCheck | crates/server/src/persistence/check_repository.rs:18-41 | stores the check unless the mapping or a schema constraint refuses it or the database fails, with that error |
| Databases.Database.InsertResult | crates/server/src/persistence/result_repository.rs:18-36 | appends the result unless the mapping or a schema constraint refuses it or the database fails, with that error |
| Databases.Database.UpdateEnabled | crates/server/src/persistence/check_repository.rs:83-90 | changes the flag of the check with that id and of no other, unless the database fails |
| Databases.CheckConstraintsAgree | migrations/20260917000000_initial_sqlite.sql:20-36 | the constraints evaluated on row text refuse exactly the invalid, duplicate or orphaned checks |
| Databases.ResultConstraintsAgree | migrations/20260917000000_initial_sqlite.sql:44-54 | the constraints evaluated on row text refuse exactly the duplicate or orphaned results |
| Databases.ConstrainedChecksRead | migrations/20260917000000_initial_sqlite.sql:20-36 | a row that the constraints let through, whoever wrote it, can fail to be read as a check only for its texts, and the flag a reload selects by is the flag that is read |
| Databases.ConstrainedResultsRead | migrations/20260917000000_initial_sqlite.sql:44-54 | a row that the constraints let through can fail to be read as a result only for its ids and its time |
| Databases.ValidChecksAreTaken | migrations/20260917000000_initial_sqlite.sql:20-36 | a check that the constructors have built is refused only for its size, for an id that is taken or for a missing service, the last two as constraint violations |
| Databases.ResultsAreTaken | migrations/20260917000000_initial_sqlite.sql:44-54 | a result is refused only for its duration, for an id that is taken or for a missing check, the last two as constraint violations |
| Databases.GetReadsBack | crates/server/src/persistence/check_repository.rs:43-54 | looking a check up by its text id finds the stored check |
| Databases.ListEnabledReads | crates/server/src/persistence/check_repository.rs:70-81 | reloading returns exactly the enabled checks, oldest first, without error |
| Databases.ListForServiceReads | crates/server/src/persistence/check_repository.rs:56-68 | listing returns exactly the service's checks, oldest first, without error |
| Databases.EnabledOldestFirst | crates/server/src/persistence/check_repository.rs:70-81 | a reload lists exactly the enabled checks, each once, by creation time and then id |
| Databases.EnabledRowsKeep | crates/server/src/persistence/check_repository.rs:70-81 | a reload selects exactly the rows whose flag is 1 |
| Databases.ServiceOldestFirst | crates/server/src/persistence/check_repository.rs:56-68 | a listing holds exactly the checks of the service, each once, by creation time and then id |
| Databases.SetEnabledCommutes | crates/server/src/persistence/check_repository.rs:83-90 | updating rows by text id is updating the checks with that id |
| Reporting.AggregateIsMaximum | crates/server/src/reporting.rs:135-149 | the aggregate is the most severe status, with Healthy < Unknown < Degraded < Unhealthy |
| Reporting.AggregateIgnoresOrderAndCount | crates/server/src/reporting.rs:135-149 | the aggregate depends only on which statuses occur |
| Reporting.TwoLevelsAreOne | crates/server/src/reporting.rs:84 | aggregating groups and then their aggregates is one aggregation, an empty group counting as one Unknown |
| Reporting.ProjectStatusIsFlat | crates/server/src/reporting.rs:75-126 | a project's status is one aggregation over the latest statuses of all its enabled checks, and no report over a consistent store fails |
| Reporting.ServiceStatusRules | crates/server/src/reporting.rs:118-126 | when a service is unhealthy, degraded, unknown or healthy, by the latest results of its enabled checks; healthy if and only if some check is enabled and each enabled one's latest result is healthy |
| Reporting.ProjectStatusRules | crates/server/src/reporting.rs:84 | when a project is unhealthy, degraded, unknown or healthy, by the status of its services |
| Reporting.ReportDescribes | crates/server/src/reporting.rs:92-132 | a report holds exactly the service's checks, oldest first, each with its newest stored result (none only if none is stored) and with the newest results as history, as many as asked for if there are as many, newest first |
| Reporting.ServicesOfKeeps | crates/server/src/reporting.rs:75-81 | a summary lists exactly the services with that project id |
| Reporting.ServicesOfSnoc | crates/server/src/reporting.rs:75-81 | they are listed in their order, each once |
| Reporting.UnhealthyHidesUnknown | crates/server/src/reporting.rs:118-126 | a concrete service with an enabled check without result that is unhealthy |
| Reporting.ServiceReadsBack | crates/server/src/reporting.rs:92-132 | over a consistent store the service report holds each check with its newest result and history |
| Reporting.StatusReporter.HealthForService | crates/server/src/reporting.rs:92-132 | the loop over checks computes the report or returns the first error; the status of a report follows its checks' latest results by the four rules |
| Reporting.StatusReporter.ServiceHealthById | crates/server/src/reporting.rs:51-63 | over a consistent store, fails exactly if no service has the id and otherwise describes exactly the service's checks, each with its newest result and history; for every history limit and store the status follows the four rules |
| Reporting.StatusReporter.Summary | crates/server/src/reporting.rs:65-90 | over a consistent store, fails exactly for an unknown project and otherwise reports exactly the services with that project id, each as described by the store, with the status that follows from theirs and is one flat aggregation |
| Reporting.SummaryIsFlat | crates/server/src/reporting.rs:65-90 | the summary read from the rows of a consistent store has the flat status of the stored values |
| Reporting.ServiceIsAnswered | crates/server/src/reporting.rs:51-63 | the service report read from the rows of a consistent store is the one over the stored values |
| Application.HealthCheckApp.CreateHttpCheck | crates/server/src/application.rs:166-193 | refuses without a trace, in this order, a missing service, a URL of whitespace, a status outside 100 to 599, a zero interval and a zero timeout, each with its error; otherwise stores the check with its URL trimmed and its first result; when only the result is refused the check stays |
| Application.ValidatedOrRefused | crates/server/src/application.rs:174-188 | validation answers the refusal or, if there is none, a valid enabled check |
| Application.LostFirstResult | crates/server/src/application.rs:189-191 | a concrete creation whose check is stored while the database fails to store the first result; the next reload returns the check |
| Application.HealthCheckApp.SetCheckEnabled | crates/server/src/application.rs:208-221 | changes the flag of an existing check, and reports a missing one or a failing database without changing anything |
| Application.HealthCheckApp.RegisterAll | crates/server/src/application.rs:253-255 | registers the listed checks in order with a fresh scheduler |
| Application.HealthCheckApp.MonitorUntil | crates/server/src/application.rs:243-259 | after any sequence of calls, the table of the run holds exactly the checks whose last write says enabled, each as stored; the database grows by exactly the results the run records, in order and for those checks only; the stats count the refusals and failures of the database and are missing only if the run was dropped or its clock ran out; the checks still marked running at the end are those of which a failed task was joined |
| Application.ReloadedAreEnabled | crates/server/src/application.rs:251 | the reloaded checks are those whose last write says enabled |
| Application.ReloadedOnce | crates/server/src/application.rs:251-255 | each check is reloaded once |
| Application.PrivateTrace | crates/server/src/application.rs:253-256 | without registrations after the start every trace is disciplined, and the table keeps its checks |
| Application.SetReflects | crates/server/src/application.rs:208-221 | setting a flag keeps the stored flags equal to the last writes |
| Application.CreateReflects | crates/server/src/application.rs:189 | creating a check keeps the stored flags equal to the last writes |

## Left out

- The HTTP request itself: an execution is an arbitrary result for its check id, or a panic before recording.
- SQLite, pooling, migrations and files: tables are sequences of encoded rows with the schema's constraints, and the database may fail to carry out a write but not a query.
- The command line, logging and error message text.
- Tokio's timers and fairness: ticks happen at arbitrary non-decreasing times, every choice is nondeterministic, and no liveness is claimed for tasks that never end.
- When the tasks of a dropped or panicked run are aborted: they may go on or stop at any point, but are never joined.
- Time between removing a task from the join set and taking the table's lock: a join is one step, as is a claim with its spawns.
- 64-bit wrap-around of the run counters.
- Timestamps outside the years 0 to 9999, which RFC 3339 cannot write: a text whose instant in UTC falls outside has no value here.
- The parsing libraries: the decoders follow section 5.6 of RFC 3339, with a blank as separator and the sign U+2212 besides, and the four UUID spellings; the libraries' code is not part of this model.
- Check kinds and statuses that future versions may add, and the error arms for them.
- Names and creation times of projects and services, which only affect the order of a summary.
- Changes to the database by others while a monitor runs: only the run writes to it.
- How the runtime interleaves the steps of a script: the event loop receives one interleaving as a parameter and is proved for all of them.
