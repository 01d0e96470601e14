# Cereyan, modelled and proved in Dafny

Cereyan is a workflow orchestrator: a server keeps runs of flows in a store, engines
execute them and report back, schedules and rules start more of them. This project
models the parts of it whose promises are about every interleaving, every history or
every input, and proves those promises of the model, or, where the code does not keep
one, proves exactly when it does and gives an input on which it does not. All
statements are about the model.

`dafny verify dfyconfig.toml` checks the whole project. One module per component:

- **ReportBuffer, ReportProtocol, Delivery, HandOff**: an engine's buffer of numbered events and log lines,
  and any number of engines under successive leases reporting one run over a network that
  loses, repeats and reorders requests and answers. The server takes a report in two steps,
  lease check and write, and hands a run out in two, new lease and work item.
- **Zones, WallClock, Schedule**: time zones as transition lists, the search for the
  instant of a local time, day intervals across clock changes, elapsed intervals, and the
  forward and backward walks over any schedule.
- **Journal, JournalRuns**: the replayed flow body, whose numbered slots make its effects happen
  once across passes, lost processes, crash reruns and retries from failure.
- **RunStates, CrashChains**: the run state machine with its counters, and the chains of
  crash reruns started by timers that a restart loses.
- **FanIn, FanInDelivery, FanInRaces, FanInUnique**: dependents of a finished run, keyed fan-in,
  and skips carried down a chain; and deliveries that overlap, where deciding on a run and
  inserting it are two steps, without and with a unique key.
- **Overlap**: the overlap-policy simulation and the sweep that measures concurrency.
- **RuleIndex, Guards**: the rule index against the plain matcher, and the rate, cooldown
  and once-per-run guards over whole histories.
- **ThreadPool**: the growing worker pool, every lock-held region one step, with tasks that
  wait for other tasks.
- **EditDistance**: the two-row distance behind name suggestions.
- **Masking**: secrets replaced one after the other.
- **Params, ParamsReading, ParamsEquality**: coercion of parameters by type hint, its inverse,
  what a value is read as, and when two are equal.
- **Basics**: what several modules share.

Where the source updates something in place the model is a class whose methods are proved
equal to a function on values, and the theorems are about that function; step systems run
on the same functions.

## What turned out not to hold

Named after each: the lemmas that say exactly when the property holds, and those that give an
input or a run on which it does not.

- A work item handed out while an admitted report of the previous lease is still waiting to
  be written makes the new engine lose events: the lease check and the write in
  `crates/server/src/api/engine.rs` are separate. Exactly: `HandOutSafeExactlyWhenDrained`.
  Run: `HandOutCanRace`.
- A local time inside a clock gap fires where the gap ends only when it is a
  whole number of minutes before the end of the gap; with a one-day step and a gap that ends
  at midnight a fire can be skipped. Exactly: `FirstInstantExactly`, `NextAfterCorrectExactly`;
  whole-minute anchors are not affected (`WholeMinutesSteady`). Input: `NuukSkipsAFire`.
- A crashed run is not rerun once a run of any kind names it as its parent: a rule's run or a
  retry takes the rerun's place for good, though the comment at
  `crates/store/src/read.rs:1738` says the lookup is about crash reruns. For every
  continuation: `OtherChildEndsChain`; without such a run the rerun stays armed
  (`RegularKeepsArmed`). Run: `RuleEndsChain`.
- The effects of a flow body happen once over a chain of crash reruns only as long as the store
  reads far enough back, which is fifty reruns (`crates/store/src/read.rs:322-338`), while the
  number of reruns a flow may have is not limited. Exactly: `RerunSafeExactly` for one rerun,
  `EffectsOnceExactly` for a whole history. Run: `LongChainForgets`.
- A keyed fan-in is checked and inserted separately, so two deliveries that overlap can start
  the flow twice for one value. Exactly: `DecisionSafeExactlyWhenNoRival`,
  `TakenForGoodExactly`. Run: `OverlappingDeliveriesStartTwice`. A unique key that the flow
  declares on the value does not prevent it: `UniqueDecisionSafeExactly`.
- Even one delivery after the other, a keyed fan-in starts a flow again for the same value when
  the new run's own key parameter does not read back as that value. Exactly:
  `ReadsBackExactly` with `UnreadBatchRepeats` for the runs that do not and `OneRunPerKeyValue`
  for those that do. Input: `UndeclaredKeyStartsTwice`.
- A truth value or null as the key starts nothing. Exactly, when no other value reads the same:
  `StartsAsMeantExactly`; otherwise every upstream needs a run that holds the word as a text
  (`WordNeedsText`). Input: `TruthValueStartsNothing`.
- The rule index misses events of a pattern whose first segment ends in a star but is not
  all stars. Exactly: `KeySafeExactly` for a pattern, `OfferedExactly` for a rule. Input:
  `OrdersMissed`.
- The pool is said never to deadlock on tasks that wait for tasks. It can: a worker counts as
  idle until it has woken, so a submission may start none, and the check before a wait adds one
  only at full capacity. Exactly: `SubmitSafeExactlyWhenPrompt`, `WaitSticksExactly`,
  `DrainsExactlyUnlessStuck`. Runs: `CheckedWaitsStick`, and `UncheckedWaitSticks` for
  `Future.exception`, which waits without the check.
- `shutdown` is said to stop accepting work, but a later submission is still queued and run, in
  every closed pool whose workers are not stuck (`SubmitAfterShutdownRuns`). Run:
  `SubmittedToClosedPool`.
- A masked text can contain the secret again exactly when the secret starts or ends with a
  star or contains the mask: for every such secret some text does (`SingleValueExactly`). Among
  other secrets `SafeValueHidden`, `HiddenByPart` and `LeaksAmongOthers` say which are hidden in
  every text and which come back.
- An Optional parameter loses a present value whose JSON form reads as none. Exactly:
  `RoundTripExactly`. Input: `OptionalLosesNone`.
- A suggested name is said to be within a third of the length of the name
  (`crates/core/src/events.rs:497`); one that is a single edit away is always near enough
  (`NearestIsFirstBest`).
- A report refused as too large is said to drop the oldest log lines
  (`crates/py/src/client.rs:290`); of the oldest event's lines the code drops the newest half,
  always (`ShedCounts`).

## Model

| member | source | states |
|---|---|---|
| ReportBuffer.RunBuffer.BeginRun | crates/py/src/client.rs:534-543 | numbering continues from the larger of the buffer's and the recorded number |
| ReportBuffer.RunBuffer.SealLogs | crates/py/src/client.rs:47-59 | the loop computes Sealed, whose order and sizes SealKeepsOrder states |
| ReportBuffer.RunBuffer.Push | crates/py/src/client.rs:592-626 | an event goes behind the log lines written before it |
| ReportBuffer.RunBuffer.Log | crates/py/src/client.rs:720-748 | a line is buffered, or counted as dropped when the buffer is full |
| ReportBuffer.RunBuffer.NextChunk | crates/py/src/client.rs:61-78 | the longest non-empty prefix within the item budget, never more than 5,000 items |
| ReportBuffer.RunBuffer.Acknowledge | crates/py/src/client.rs:243-314 | keeps exactly the events after the acknowledged number |
| ReportBuffer.RunBuffer.Forget | crates/py/src/client.rs:279-288 | a vanished run empties the buffer and is cancelled |
| ReportBuffer.RunBuffer.Superseded | crates/py/src/client.rs:301-310 | a stale lease drops the pending events and cancels |
| ReportBuffer.RunBuffer.Shed | crates/py/src/client.rs:289-300 | the second half of the oldest event's lines is shed and counted, no number changes |
| ReportBuffer.ShedCounts | crates/py/src/client.rs:289-300 | shedding keeps every number and every other event; what is lost are the newest lines of the oldest event |
| ReportBuffer.ChunkFits | crates/py/src/client.rs:61-78 | any chunk of a buffer whose events fit the budget fits it; sealing, pushing, acknowledging and shedding keep the buffer so |
| ReportBuffer.ItemsCounted | crates/py/src/client.rs:61-78 | the item count of a request is the number of events and lines it holds |
| ReportBuffer.SealKeepsOrder | crates/py/src/client.rs:47-59 | sealing empties the lines into events of 1 to 5,000 lines, numbered without a hole, every line in order |
| ReportBuffer.SealsFull | crates/py/src/client.rs:47-59 | every sealed event but the last is full |
| ReportBuffer.PushKeepsOrder | crates/py/src/client.rs:592-626 | the events pushed flatten to the lines before the event, then the event |
| ReportBuffer.RetainedDropsPrefix | crates/py/src/client.rs:243-314 | on numbered events an acknowledgement drops exactly the prefix it covers |
| ReportBuffer.ApplyTakesUnseen | crates/store/src/writer.rs:1759-1963 | of a consecutive report, one that starts further on included, exactly the events beyond the recorded number are taken |
| ReportBuffer.ApplyTakesUnseenTail | crates/store/src/writer.rs:1759-1963 | of a numbered report exactly the part beyond the recorded number is taken |
| ReportBuffer.StoredRun.TakeReport | crates/server/src/api/engine.rs:80-99 | an older lease is refused and changes nothing, otherwise the unseen events are taken in order; what landed and what was rejected are the taken events judged so |
| ReportBuffer.StoredRun.TakeOne | crates/store/src/writer.rs:1759-1963 | the number moves on whether the event lands, is unknown or is rejected |
| ReportBuffer.JudgedExactly | crates/store/src/writer.rs:1759-1963 | the events that land, and those rejected, are exactly the ones judged so, in order |
| ReportBuffer.ChunkMoves | crates/py/src/client.rs:243-314 | after a chunk is applied and acknowledged, what the store gained is what the buffer no longer owes |
| ReportBuffer.FlushChunk | crates/py/src/client.rs:243-314 | record and debt together stay the same whether the answer arrives, is lost or nothing was taken; only a vanished run or a too large request drops anything; under another lease nothing is taken; the engine is told to stop, and remembers it, exactly when the run asks for it, is gone, or has another lease |
| ReportBuffer.Exchange | crates/py/src/client.rs:243-325 | the same for one request with a given chunk, reply by reply: what stays pending, how many lines are dropped, and whether the engine is to stop |
| ReportBuffer.FlushRun | crates/py/src/client.rs:231-240 | ends; on success the buffer is empty and, if no reply dropped anything, every event was taken once, in order, log lines included, and the caller is told to stop exactly when an answer or the buffer said so; on an error nothing is lost |
| ReportBuffer.AnyStopsExactly | crates/py/src/client.rs:231-240 | some answer told the engine to stop, in `FlushRun`'s contract, means one of them did |
| ReportProtocol.StepKeeps | crates/py/src/client.rs:243-325 | every step of engines, network and server keeps the invariant: each chunk in flight is contiguous and starts at most one past the recorded number |
| Delivery.ExactlyOnceInOrder | crates/py/src/client.rs:243-314 | over every orderly run the record is each lease's segment, in lease order, numbered 1 to reportSeq; the program order is what was issued; everything later is still pending |
| Delivery.EveryChunkFits | crates/py/src/client.rs:61-78 | in every run, orderly or not, no request an engine makes carries more than 5,000 items |
| Delivery.LineKeptExactly | crates/py/src/client.rs:720-748 | a line is kept, behind those before it, exactly when lines and pending events together leave room |
| Delivery.LinesBounded | crates/py/src/client.rs:720-748 | in every run, however long nothing gets through, no more than 1,000,000 lines wait to be sealed |
| Delivery.RefusedGivesUp | crates/py/src/client.rs:301-310 | an engine told that its lease is stale drops its pending events and nothing else changes |
| Delivery.SealedKeepsProgram | crates/py/src/client.rs:47-59 | sealing moves an engine's lines behind its pending events, all of them, in order |
| Delivery.SupersededNeverLands | crates/server/src/dispatch.rs:353-357 | after a lease is superseded nothing sent under it lands, only reports admitted before can, and the past is never rewritten |
| HandOff.HandOutSafeExactlyWhenDrained | crates/server/src/api/engine.rs:333-404 | handing a run out loses nothing in any orderly continuation exactly when no admitted report waits to be applied |
| HandOff.HandOutCanRace | crates/server/src/api/engine.rs:333-404 | a run of the code reaches a hand-out that is not safe |
| Zones.EarliestIsLeast | crates/core/src/schedule.rs:462-483 | the earliest instant of a local time is the least that shows it, or none does |
| Zones.FindInstant | crates/core/src/schedule.rs:470-483 | the minute loop computes LocalToInstant |
| Zones.InstantFound | crates/core/src/schedule.rs:470-483 | in an ordinary zone the bounded minute search always finds an instant: the first that shows the local time, or the whole-minute step past the gap |
| Zones.FirstInstantExactly | crates/core/src/schedule.rs:462-483 | it is the first instant at or past the local time exactly when a local time in a gap is whole minutes before its end |
| WallClock.FindNextAfter | crates/core/src/schedule.rs:227-249 | the day-step loop computes NextAfter |
| WallClock.NaiveIs | crates/core/src/schedule.rs:227-249 | grid day n has the anchor's local time, n times the step later |
| WallClock.FiresAscend | crates/core/src/schedule.rs:227-249 | each grid day fires once and later days fire later, across gaps and overlaps |
| WallClock.NextAfterIsPast | crates/core/src/schedule.rs:227-249 | three tries always find a fire past the cursor, so the fallback is unreachable |
| WallClock.NextAfterCorrectExactly | crates/core/src/schedule.rs:227-249 | the search returns the least fire after every cursor exactly when no day of a one-day grid slips across midnight |
| WallClock.WholeMinutesSteady | crates/core/src/schedule.rs:227-249 | whole-minute anchors and zones never slip |
| WallClock.WalkVisitsEachDay | crates/core/src/schedule.rs:227-249 | stepping from a fire gives the next grid day's fire |
| WallClock.NuukSkipsAFire | crates/core/src/schedule.rs:227-249 | a zone, an anchor and a cursor for which a fire is skipped |
| Schedule.ElapsedIsLeast | crates/core/src/schedule.rs:217-226 | an elapsed interval answers with the least grid point strictly later, before the anchor too |
| Schedule.ElapsedFollows | crates/core/src/schedule.rs:217-226 | an interval shorter than a day is a next-oracle of its grid |
| Schedule.WholeDaysExactly | crates/core/src/schedule.rs:230 | the step of an interval of a day or more is the nearest whole number of days, half a day rounding up |
| Schedule.DaysFollow | crates/core/src/schedule.rs:227-249 | an interval of a day or more whose grid, of the nearest whole number of days, is steady answers with the least fire of that grid |
| Schedule.OraclesFollow | crates/core/src/schedule.rs:199-207 | cron and recurrence rules answer as their oracles do; a continuous schedule never fires |
| Schedule.FailsExactly | crates/core/src/schedule.rs:213-216 | only an interval that is not positive fails, for every cursor |
| Schedule.FiresBetween | crates/core/src/schedule.rs:397-417 | exactly the first max fires in (start, end], ascending, and when it errs |
| Schedule.FiresBefore | crates/core/src/schedule.rs:433-459 | exactly the last count fires in [floor, end], newest first |
| Schedule.WalksAgree | crates/core/src/schedule.rs:397-459 | over one window each walk is the other reversed |
| Journal.SlotTextInjective | python/cereyan/context.py:108-131 | slot texts differ whenever kind, name or number do, whatever the names contain |
| Journal.PrefixTellsKind | python/cereyan/engine/runner.py:334-342 | the artifact prefix tells artifact slots apart |
| Journal.RunContext.NextDynamicKey | python/cereyan/context.py:72-76 | task keys number the uses of a name |
| Journal.RunContext.NextInputIndex | python/cereyan/context.py:78-88 | questions are numbered in order |
| Journal.RunContext.StartPass | python/cereyan/context.py:90-102 | a pass numbers its calls from zero and keeps the effects |
| Journal.RunContext.Effect | python/cereyan/context.py:108-131 | inside a task everything is performed; else a call is performed exactly when its slot is not journaled or is journaled with other content, and otherwise answered with its reference |
| Journal.RunContext.RememberEffect | python/cereyan/context.py:133-137 | a performed effect is journaled under its slot |
| Journal.PerformCall | python/cereyan/artifacts.py:24-41 | effect and remember_effect together are one step of Perform |
| Journal.PassPerformsChanged | python/cereyan/context.py:108-137 | any pass of any body over any journal performs exactly the calls whose slot is new or holds other content, in order |
| Journal.PassJournals | python/cereyan/context.py:108-137 | afterwards the journal holds the content of every call made, under the reference it was answered with |
| Journal.ChangedContentRepeats | python/cereyan/context.py:128-131 | after a pass of a body with the same calls but perhaps other content, a pass performs exactly the calls whose content changed |
| Journal.JournalIsLatest | crates/store/src/read.rs:1383-1416 | the journal is the latest row per slot without other runs' artifacts |
| Journal.JournalReadExactly | crates/store/src/read.rs:1383-1416 | what a chain reads, its rows over the seed of its retry, is the journal of everything ever stored exactly when no effect, nor the chain's beginning, is more than fifty reruns back |
| Journal.SeedsAddUp | crates/server/src/api/runs.rs:943-981 | the seed of a retry of a retry is that of all rows before it, as long as none is out of reach |
| Journal.PassPerformsTheRest | python/cereyan/context.py:90-137 | a pass stopped anywhere performs exactly the calls below that not performed before, in order, and answers all with their journaled references |
| JournalRuns.StoredOnceInOrder | python/cereyan/engine/runner.py:330-344 | after any passes, flushes, lost processes, retries from failure and crash reruns with everything in reach, the store holds each run's artifacts and the line's other effects once each, in body order, with no hole |
| JournalRuns.CompletedBody | python/cereyan/context.py:90-137 | a pass that reaches the end leaves every effect journaled exactly once and answered with the recorded references |
| JournalRuns.RerunSafeExactly | crates/store/src/read.rs:322-338 | after a crash rerun every effect still happens once and in order, whatever pass the new run makes, exactly when no effect, nor the chain's beginning, is more than fifty reruns back |
| JournalRuns.EffectsOnceExactly | python/cereyan/engine/runner.py:330-344 | over a whole history of passes, flushes, losses, reruns and retries: every effect happens once, whatever pass is made at any time, exactly when each rerun had everything in reach |
| JournalRuns.LongChainForgets | crates/store/src/read.rs:322-338 | a reachable chain of fifty reruns whose next rerun is not safe |
| RunStates.FromPartsSettles | crates/core/src/state.rs:176-199 | a state always has a name, a recognised name its own type, and the result is stable |
| RunStates.NameDecidesType | crates/core/src/state.rs:103-119 | a state under one of the thirteen sub-state names is of that name's type, under any other name of the type it came with |
| RunStates.TypeTextsDiffer | crates/core/src/state.rs:40-52 | a type can be read off its text |
| RunStates.RunCounters.Apply | crates/core/src/rules.rs:118-145 | the counters change as Applied says |
| RunStates.CountersSummarise | crates/core/src/rules.rs:118-145 | after any proposals, forced too, the counters are the history's: failures, crashes, first Running, end iff terminal, run time |
| RunStates.HistoriesAreLegal | crates/core/src/rules.rs:54-105 | the histories unforced proposals can produce are exactly those whose every step Follows allows |
| RunStates.LegalOrder | crates/core/src/rules.rs:54-105 | a terminal state is last, Cancelling is followed only by Cancelled, Paused comes straight after Running |
| RunStates.FinalExactly | crates/core/src/state.rs:33-38 | no unforced proposal is accepted exactly in Completed, Failed, Cancelled and Crashed |
| CrashChains.Dispatcher.TransitionRun | crates/server/src/state.rs:513-570 | a transition through the rules; a terminal or paused run loses its timers |
| CrashChains.MovesExactly | crates/server/src/state.rs:513-570 | a transition is made when forced or where it may follow, changes that run's state only, and clears its timers exactly when it ends or pauses the run |
| CrashChains.Dispatcher.CrashRun | crates/server/src/dispatch.rs:344-384 | computes CrashOf, for an unknown run nothing |
| CrashChains.Dispatcher.CrashRerun | crates/server/src/dispatch.rs:427-472 | computes RerunOf, for an unknown run nothing |
| CrashChains.Dispatcher.RearmCrashChains | crates/server/src/dispatch.rs:406-424 | timers are those of the recent crashed runs below the limit without a child |
| CrashChains.StepKeeps | crates/server/src/dispatch.rs:344-472 | every step keeps reruns consecutive, first children, within the limit, and timers below it |
| CrashChains.ChainsLinearAndBounded | crates/server/src/dispatch.rs:344-472 | in every reachable state a chain never forks, attempts count the reruns, and none exceeds the limit |
| CrashChains.OneRerun | crates/server/src/dispatch.rs:427-436 | each run has at most one crash rerun |
| CrashChains.RerunStartsExactly | crates/server/src/dispatch.rs:427-472 | of all steps only the timer of a Crashed run without a child starts its rerun, Scheduled, with one more attempt and the same limit |
| CrashChains.CrashEnds | crates/server/src/dispatch.rs:344-384 | a crash ends the run Crashed and armed below the limit, Failed at it, exactly when it is live and not cancelling; the lease always grows |
| CrashChains.RegularKeepsArmed | crates/server/src/dispatch.rs:344-424 | no run waits for a rerun without a timer, if only crash detection crashes runs and restarts come within the lookback |
| CrashChains.RestartArmsRecent | crates/server/src/dispatch.rs:398-424 | a restart arms a waiting run exactly when it crashed within the lookback |
| CrashChains.OtherChildEndsChain | crates/server/src/dispatch.rs:427-436 | once another run is the child, nothing later reruns the crashed one |
| CrashChains.RuleEndsChain | crates/server/src/rules.rs:931-945 | a crash, a rule's run and any continuation: the armed rerun never happens |
| FanIn.Store.TriggerDependents | crates/server/src/dispatch.rs:598-600 | an undisturbed delivery computes Delivered, which `DeliveryExactly` states |
| FanIn.Store.TriggerDependentsAt | crates/server/src/dispatch.rs:602-809 | the loop over dependents computes Trigger at its depth |
| FanInDelivery.DeliveryExactly | crates/server/src/dispatch.rs:598-809 | every run a delivery adds is the one its flow gets as the runs stood then, skipped exactly when a skip reaches it; every dependent of the finished run, and of each run created skipped, 32 links down and no further, has its turn |
| FanInDelivery.SkippedExactly | crates/server/src/dispatch.rs:668-747 | a new run is skipped exactly when the delivering run carries a skip or the newest run with the value, of some upstream of a keyed flow, does; else it waits to be run |
| FanInDelivery.DependentsAre | crates/server/src/dispatch.rs:613-627 | the flows whose `after` names the finished one, each once and in order |
| FanInDelivery.MadeParamsAre | crates/server/src/dispatch.rs:690-723 | a new run's parameters: what `after` sets, else the upstream run's for declared names, else the default, and nothing else |
| FanIn.LatestFinds | crates/store/src/read.rs:2324-2349 | the lookup finds the newest run of the flow with the value, if any |
| FanIn.FoundByExactly | crates/store/src/read.rs:2324-2349 | a stored value is found by another exactly when they have the same text, it spells a truth value or null, or it is a truth value looked up as 1 or 0 |
| FanIn.ReadsBackExactly | crates/server/src/dispatch.rs:690-723 | it reads back exactly when the key is set to the same text, or declared, not overridden and a text or number |
| FanIn.UnreadBatchRepeats | crates/server/src/dispatch.rs:676-689 | a run that does not read back: the next delivery with the value starts the flow again |
| FanIn.StartsAsMeantExactly | crates/server/src/dispatch.rs:629-689 | when no other value reads the same, a keyed flow is started exactly when every upstream's newest run that holds the value has finished, no run of its own holds it, and it is a text or a number |
| FanIn.WordNeedsText | crates/store/src/read.rs:2324-2349 | a truth value or null triggers only if a run of every upstream holds the same word as text |
| FanIn.SkipCascadeEnds | crates/server/src/dispatch.rs:592-601 | on any graph a delivery ends, adds a bounded number of runs, each a direct dependent or a skip hanging on a new skip; a skipped run adds skips only |
| FanInRaces.OneRunPerUpstreamRun | crates/server/src/dispatch.rs:748-766 | however deliveries overlap, repeat and come late, a flow without its own unique key has at most one run per upstream run |
| FanInRaces.TakenForGoodExactly | crates/server/src/dispatch.rs:676-689 | once a run reads as the value no further one ever starts for it exactly when no live row for it waits to be inserted |
| FanInRaces.DecisionSafeExactlyWhenNoRival | crates/server/src/dispatch.rs:629-766 | a decision leads to at most one run for its value, in every orderly continuation, exactly when no other run's live row for the value is waiting |
| FanInRaces.AtMostOneMore | crates/server/src/dispatch.rs:629-766 | from a state with one source for the value, any orderly run starts at most one more run for it |
| FanInRaces.OneRunPerKeyValue | crates/server/src/dispatch.rs:629-766 | over every run of decisions without a rival, once a fan-in run reads back no other is started for its value |
| FanInRaces.DeliveryIsOrderly | crates/server/src/dispatch.rs:598-809 | an undisturbed delivery is such a run of decisions and insertions |
| FanInRaces.OverlappingDeliveriesStartTwice | crates/server/src/dispatch.rs:676-689 | from an empty store, two deliveries that both look before either inserts start the flow twice for one value |
| FanInUnique.UniqueDecisionSafeExactly | crates/server/src/api/runs.rs:61-98 | with a unique key declared on the value, held by runs that have not ended, a decision leads to at most one run, in every orderly continuation, exactly when nothing decided for the value waits |
| FanInRaces.UndeclaredKeyStartsTwice | crates/server/src/dispatch.rs:690-723 | a flow that does not declare its key is started twice for one value by one delivery after the other |
| FanInRaces.TruthValueStartsNothing | crates/store/src/read.rs:2324-2349 | a flow keyed on a truth value is not started by the run that sets it |
| Overlap.Ticks | benches/soak_overlap.py:142-150 | exactly the grid's times before the window's end |
| Overlap.FireAtClosed | benches/soak_overlap.py:142-150 | fires are an interval apart, from the offset or zero |
| Overlap.DurationsRepeat | benches/soak_overlap.py:55-58 | listed durations are used in turn, over and over; without a list all last the same |
| Overlap.TicksAscend | benches/soak_overlap.py:142-150 | a window's fires are ascending, as the theorems about the queue ask |
| Overlap.OneTick | benches/soak_overlap.py:158-186 | one turn of the loop computes Tick |
| Overlap.Simulate | benches/soak_overlap.py:153-194 | the counts are those of Simulated over the window's fires, and add up to them |
| Overlap.FiresConserved | benches/soak_overlap.py:153-194 | fires = started + skipped + cancelled + pending, and which of them a policy can have |
| Overlap.CountsMean | benches/soak_overlap.py:153-194 | started and completed count the holds that start and end in the window |
| Overlap.NeverTooDeep | benches/soak_overlap.py:153-194 | at no instant do more than cap runs hold a slot |
| Overlap.QueueIsFifo | benches/soak_overlap.py:162-169 | a queued run starts at the first instant, after its fire and the last start, at which a slot is free |
| Overlap.StartsInOrder | benches/soak_overlap.py:162-169 | queued starts are in order, none before its fire |
| Overlap.DroppedExactlyWhenFull | benches/soak_overlap.py:174-186 | the other policies drop a fire exactly when all slots are taken |
| Overlap.MaxConcurrent | benches/soak_overlap.py:349-361 | the loops compute the highest prefix sum of the sorted changes |
| Overlap.SweepIsMaximum | benches/soak_overlap.py:349-361 | for all runs that is the maximum over time of starts minus ends |
| Overlap.NetIsRunning | benches/soak_overlap.py:349-361 | which is the number of runs with start <= t < end when none ends before it starts |
| Overlap.SimulationStaysUnderCap | benches/soak_overlap.py:349-361 | the sweep over simulated runs never exceeds the cap |
| RuleIndex.Build | crates/rules/src/lib.rs:439-482 | the index holds exactly the rules' ids under exactly their keys |
| RuleIndex.CandidatesAre | crates/rules/src/lib.rs:484-493 | candidates are ascending, without repeats, and exactly the rules filed under every event or the first segment |
| RuleIndex.IndexMissesNothing | crates/rules/src/lib.rs:430-494 | a rule filed under safe patterns is a candidate for every event that fires or disarms it |
| RuleIndex.MatchesExactly | crates/rules/src/lib.rs:20-25 | a prefix with a star matches the names that continue it, the bare prefix included; any other pattern only itself |
| RuleIndex.KeySafeExactly | crates/rules/src/lib.rs:20-25 | a pattern's key covers all its matches exactly when its first segment is all stars or does not end in one |
| RuleIndex.OfferedExactly | crates/rules/src/lib.rs:438-494 | a rule is offered for every event that concerns it exactly when it is filed under every event or all its filed patterns are safe |
| RuleIndex.OrdersMissed | crates/rules/src/lib.rs:438-494 | the pattern and event for which it is not |
| Guards.GuardState.Record | crates/rules/src/lib.rs:206-219 | the pruning loops compute Recorded |
| Guards.RateAndCooldown | crates/rules/src/lib.rs:160-220 | with a clock that does not go back every minute holds at most the cap and firings are a cooldown apart |
| Guards.RefiresOnlyAfterManyRuns | crates/rules/src/lib.rs:173-178 | once per run refires for a run or chain only after at least 5,001 different other runs since |
| Guards.FiresExactly | crates/rules/src/lib.rs:160-220 | over any history an event fires exactly when the rule is on, it is not the rule's own run, its run or chain is not remembered, the cooldown is over, the minute has room and the streak is long enough; it is then noted under its run and time |
| ThreadPool.ThreadRunner.Submit | python/cereyan/runners.py:213-222 | queues, and starts a worker when none is idle and capacity is left |
| ThreadPool.ThreadRunner.TakeTurn | python/cereyan/runners.py:190-211 | the worker's turn: take the oldest, wait, or end |
| ThreadPool.ThreadRunner.Wake | python/cereyan/runners.py:190-211 | a waking worker takes a turn, or ends when it is one too many |
| ThreadPool.ThreadRunner.CheckDeadlock | python/cereyan/runners.py:224-244 | a saturated wait raises the capacity and starts a worker |
| ThreadPool.ReachableKeeps | python/cereyan/runners.py:164-244 | workers never exceed max_workers + blocked, waiting work has a live worker, functions are taken in order and once |
| ThreadPool.DrainedBeforeWorkersEnd | python/cereyan/runners.py:177-181 | a worker ends only when nothing waits, so everything submitted was taken when all have |
| ThreadPool.WorkerEndsExactly | python/cereyan/runners.py:190-203 | a worker ends exactly when it finds no work and the pool is closed or it woke as one too many |
| ThreadPool.ClosedPoolEnds | python/cereyan/runners.py:177-203 | in a closed pool with nothing left to do all workers end, each at its next turn |
| ThreadPool.StartedKeepsWorkers | python/cereyan/runners.py:173-175 | a started pool, closed before or not, keeps its workers until it is shut down, up to max_workers |
| ThreadPool.ThreadRunner.AwaitResult | python/cereyan/runners.py:37-56 | asking for a result checks, then waits, unless it is there |
| ThreadPool.WaitsExactly | python/cereyan/runners.py:37-56 | a finished task is not waited for, any other is, checked or not |
| ThreadPool.DrainsExactlyUnlessStuck | python/cereyan/runners.py:159-211 | the workers alone can get through all that was submitted exactly when they are not stuck: work queued, none free, every running task waiting for an unfinished one |
| ThreadPool.CheckFreesExactly | python/cereyan/runners.py:224-244 | the check leaves a free worker exactly when one was free or the busy ones reached the capacity |
| ThreadPool.WaitSticksExactly | python/cereyan/runners.py:224-244 | a checked wait leaves the pool stuck exactly when work is queued, no worker is free, the pool is below capacity and all other running tasks wait |
| ThreadPool.SubmitSafeExactlyWhenPrompt | python/cereyan/runners.py:213-222 | after a submission no careful continuation gets stuck exactly when it started a worker, the pool was full, or a free worker is left for it |
| ThreadPool.CarefulRunsNeverStick | python/cereyan/runners.py:159-244 | with such submissions and checked waits for later tasks, no run of the pool is ever stuck |
| ThreadPool.CheckedWaitsStick | python/cereyan/runners.py:159-244 | a run in which two checked waits leave a task queued forever with a worker to spare |
| ThreadPool.UncheckedWaitSticks | python/cereyan/runners.py:37-56 | a run in which asking for an exception waits without the check and sticks |
| ThreadPool.SubmitAfterShutdownRuns | python/cereyan/runners.py:177-222 | in every closed pool a later submission is queued and, unless the workers are stuck, run |
| ThreadPool.SubmittedToClosedPool | python/cereyan/runners.py:177-222 | a shutdown, a submission and a worker that takes it |
| EditDistance.Levenshtein | crates/core/src/events.rs:511-524 | the two rows compute Distance |
| EditDistance.DistanceIsLeastEdits | crates/core/src/events.rs:511-524 | the distance is the least number of edits of any script between the strings |
| EditDistance.Symmetric | crates/core/src/events.rs:511-524 | it is symmetric |
| EditDistance.ZeroExactlyWhenEqual | crates/core/src/events.rs:511-524 | it is zero exactly for equal strings |
| EditDistance.Triangle | crates/core/src/events.rs:511-524 | it obeys the triangle inequality |
| EditDistance.NearestIsFirstBest | crates/core/src/events.rs:500-509 | the suggestion is the earliest best candidate that is a single edit away or at most as many as a third of the characters; none exactly when none is that near |
| EditDistance.ExactNameWins | crates/core/src/events.rs:500-509 | a candidate that differs only in case always wins |
| EditDistance.SameLowered | crates/core/src/events.rs:501-505 | names are equal in lower case exactly when they differ at most in the case of ASCII letters |
| EditDistance.BytesOfChar | crates/core/src/events.rs:507 | the length that breaks ties is counted in UTF-8: the fewest bytes that hold each character |
| Masking.Masker.Register | python/cereyan/masking.py:23-46 | adds exactly the texts of registered length, keeps the list longest first without repeats, older before newer of one length |
| Masking.CollectedExactly | python/cereyan/masking.py:34-46 | however nested, exactly the texts and scalars inside a value are found |
| Masking.SortedStable | python/cereyan/masking.py:31 | values of one length stay in the order they were registered in |
| Masking.Masker.Mask | python/cereyan/masking.py:48-55 | computes Masked |
| Masking.SafeValueHidden | python/cereyan/masking.py:48-55 | a safe value is left in no text, whatever else is registered: no later replacement brings it back |
| Masking.HiddenByPart | python/cereyan/masking.py:48-55 | nor is any value that contains a safe registered one |
| Masking.LeaksAmongOthers | python/cereyan/masking.py:48-55 | a value comes back from a leaking text that no other value touches |
| Masking.MaskingIsComplete | python/cereyan/masking.py:48-55 | with safe values only, none is left in any text |
| Masking.MaskingKeepsOtherText | python/cereyan/masking.py:48-55 | text without registered values is unchanged |
| Masking.MaskingTwice | python/cereyan/masking.py:48-55 | masking again changes nothing |
| Masking.StarFreeIsSafe | python/cereyan/masking.py:15-17 | values without a star are safe |
| Masking.SingleValueExactly | python/cereyan/masking.py:48-55 | a single value is hidden in every text exactly when it is safe |
| Masking.ValueBecomesMask | python/cereyan/masking.py:27-31 | longest first, a registered value by itself becomes one mask |
| Params.RoundTripExactly | python/cereyan/params.py:104-256 | coerce(to_json(v)) = v for every hint and value exactly when no Optional meets a present value that reads as none |
| Params.OptionalLosesNone | python/cereyan/params.py:108-114 | a text and an enum member that are lost |
| Params.CoerceIsTypedAndIdempotent | python/cereyan/params.py:104-256 | coercing JSON gives a value of the hint, and again changes nothing |
| ParamsReading.CoerceExactly | python/cereyan/params.py:104-256 | for every value and hint, coercion gives v exactly when the value is read as v, and so fails exactly when it is read as nothing |
| ParamsEquality.EqualityExactly | python/cereyan/params.py:210-240 | the equality that decides on choices and members: JSON values are equal exactly when they are the same but for the order of dictionaries, truth values counting as 0 and 1 |
| Params.JsonIsItself | python/cereyan/params.py:352-374 | JSON values render as themselves |
| Params.CoerceAll | python/cereyan/params.py:285-299 | unknown names fail, otherwise the loop fills the parameters as Filled does |
| Params.FilledExactly | python/cereyan/params.py:285-299 | it succeeds exactly when every parameter has a value, and holds exactly the declared names |
| ParamsReading.ParametersExactly | python/cereyan/params.py:285-299 | a flow gets its parameters exactly when every name given is declared and every declared one is read or has a default, and then those |

## Left out

- HTTP, TLS, waiting and retrying, thread start-up: only buffer, acknowledgement and lease logic is modelled.
- Apply: the body of each report event (task runs, artifacts, custom events) is carried, not interpreted.
- The 404 and 413 answers are in `FlushChunk` and `FlushRun`; the step system has the other answers, losses, repeats and the stale lease.
- HandOut: every hand-out gives the run to a new process. One that gets the same run again keeps its buffer, continues its numbers and sends under the new lease; that is not a step.
- StepKeeps: the one of `ReportProtocol` is about orderly steps, which hand a run out only when no admitted report waits to be applied; for the others `HandOutSafeExactlyWhenDrained` says exactly what happens.
- ExactlyOnceInOrder: over orderly runs, for the same reason.
- ApplyTakesUnseenTail: an event taken may still be rejected or name an unknown task run; `StoredRun` keeps the three apart by a judge of events, whose own rules are not modelled.
- Cron and RRULE expansion: oracles for the next and previous member of a set of instants; `next_fires` is not modelled.
- Zones: zones are lists of transitions with gaps of at most 180 minutes, well spaced; the tz database is not modelled. Times and intervals are whole microseconds.
- StoredOnceInOrder: the body is deterministic, an effect and its journal row are one write, and the content stands for its hash; an in-process retry without `checkpoint=True` clears the journal on purpose and is not a step. A retry from the start repeats everything by design and is not a step; the seed of a retry that invalidates single tasks holds all effects, as in the code, and its checkpoints are not modelled.
- ChainsLinearAndBounded: a flow's limit does not change during a chain; timers fire one at a time, as the server's timer loop does.
- TriggerDependents: one delivery undisturbed by others; overlapping ones are in FanInRaces.
- DecisionSafeExactlyWhenNoRival: for flows without a declared unique key; `UniqueDecisionSafeExactly` is for a key declared on the fan-in parameter and held until its run ends; other keys, periods and states are oracles.
- FanIn: `run.id`, `run.name` and `run.external_id` templates, tags, priorities, names and debouncing; a declared unique key is an oracle; numbers are compared by their JSON text.
- Backfill completion: single-branch bookkeeping.
- Overlap: floating-point rounding; times are exact reals. The soak driver and its server sampling.
- RuleIndex: the state, tag, flow and project clauses of a match, and validation of names.
- RateAndCooldown: guard state is in memory, so a restart forgets it; cooldowns are whole microseconds.
- ThreadPool: result values, context propagation, timeouts of waits; a task waits for one other at a time; `ProcessRunner`.
- SingleValueExactly: the exact condition is for a single value; among several, `HiddenByPart` and `LeaksAmongOthers` are each one direction.
- Params: float, date, datetime, timedelta, tuples, opaque hints, non-text dictionary keys, JSON schema generation; texts, numbers and JSON are read by oracles.
- EditDistance: `check_event_name` and the event catalogue.
