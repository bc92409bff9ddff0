# Verified models of the MR editor's derived state and background machinery

This project models the parts of the MR editor whose correctness rests on an argument across many
functions, and proves that argument in Dafny 4.11. `dafny verify dfyconfig.toml` checks everything.

| files | part of the editor |
|---|---|
| `FoldSpans`, `FoldProjection`, `FoldCanonical`, `FoldLayers`, `FoldLevel`, `FoldTransitions`, `FoldState` | folding: which document lines are hidden, and the maps between document lines and screen rows |
| `Coprocessor`, `CoprocessorRuns`, `CoprocessorTasks`, `CoprocessorProgress`, `Telemetry` | the background coprocessor as a transition system, what becomes of each task, that nothing gets stuck, and its counters and their reverse replay |
| `Scheduler`, `SchedulerSessions` | the scheduler for periodic macros, and the macro sessions it starts |
| `ScreenCells`, `ScreenModel`, `ScreenShadow`, `ScreenSafety`, `ScreenExact`, `ScreenRuns`, `ScreenFailures`, `Playback`, `CellCodec` | deferred macro UI: the screen, the shadow screen that decides what to skip, the queue that is drained in slices |
| `SaveBroker` | the privileged save broker |
| `UpdateProtocol` | the update package on the wire |
| `WarmRanges` | the line ranges whose syntax colours are up to date |
| `LineSplitter` | paths collected from a command's output |
| `Basics` | an option type, minimum and maximum, bytes, decimal digits |

**Folding.** A line is hidden if some closed span has start < line <= end. Four layers of spans overlap:
explicit folds, canonical batches of one fold level, a preview of the viewport, and descendants of opened
spans. The program never builds the hidden set; it adds and subtracts sizes found by binary search. The
methods of `FoldState.FoldingDerivedState` are proved to return the number of lines in that set, and the two
line maps are proved inverse to each other. A ghost `Document` holds all foldable spans of the text: any two
are strictly nested or strictly apart, and the spans of one level are pairwise apart. All layers are drawn
from it. The hypotheses each operation needs beyond that are in its `requires`: an adopted batch lies behind
the previous ones and starts before the new canonical end, and every visible span has its level's span
visible or adopted.

**Coprocessor.** One action per mutex-protected region; any interleaving of submitting threads, workers,
pump and shutdown. Conservation is an equation per task id: the places the id can be in (queues, workers,
results, discards) add up to one if it was accepted and to none otherwise. `CoprocessorTasks` follows single tasks:
a lane takes them in the order given, a result carries the status its task ended with, a task cancelled in time
is never called, and one that nobody cancelled is called before it has a result. `CoprocessorProgress` shows that
guards are not too strict: a worker can always go on, and a shutdown that has begun can always be brought to its
end, whatever happened before.

**Scheduler.** A consumer ticks in a pump exactly if each of its earlier ticks was at least an interval ago. The pump chooses consumers under a lock, starts their macros outside it, and records each start
from a snapshot that may be stale, before looking again at the remembered results. `SchedulerSessions` is this
protocol as a transition system with any interleaving of the pump, of sessions that finish and of the threads
they notify. No consumer with an unfinished session is ever started. The converse fails: only 32 results are
remembered, and `SomeConsumerIsBlockedForGood` is a run after which a consumer stays blocked by a finished
session; `BlockedOnlyByForgottenResults` and `ForgottenStaysBlocked` say when and for how long.

**Shadow screen.** The program renders a deferred command only if its own copy of the cells would change.
The renderer (`MacroCellGrid`) is modelled beside the copy (`MacroScreenModel`). `Tracked` is a condition on a
command and on what the copy knows; `ScreenExact.TrackedExactly` shows that it holds exactly for the commands
that are handled well on every screen the copy may stand for. Skipping is proved safe for whole playbacks with
failures, reseeding and foreign drawing, as long as every command is tracked and finds the cursor or the saved
box it looks at where full rendering would have it. What is excluded is what the code gets wrong, each with a
run in `ScreenFailures` after which a cell differs from full rendering: closing a box restores the screen but
not the copy; a box shadow with room on one side only shades a stray cell of the copy or writes outside its
vector; clear-line moves a stretch that starts left of the screen in the renderer and shortens it in the copy;
line and column numbers are drawn on the screen and not in the copy; a skipped clear-screen does not move the
cursor. Two suspicions turned out unfounded: scrolling unknown cells is safe, since a scroll that changes
nothing leaves the blanked row everywhere, and a box is never skipped, since it is blanked before its corners
are drawn. Two assumptions: a failed rendering leaves the cells as they were (it may count as a change), and
drawing by others leaves the same screen whether or not commands were skipped before.

**Playback.** The queue keeps a ghost history: everything that happened to the screen and the copy, every
command consumed with its outcome and the question to the surroundings that decided it, and every list ever
queued. The screen is what the history's events give, the events are those of the consumed commands, and the
commands are consumed one by one from the first list on, none left out. So the safety of skipping holds of
whatever the pump did.

**Save broker.** The broker is a class; each method is proved equal to a function on its whole state, and the
promises are proved of those functions, over every stream of requests with every combination of failures,
writes by the editor and changes from outside. A file differs at the end only if it was changed from outside,
or if it is the target or the backup of a commit that found its target as the broker had seen it. A backup
whose name belongs to another authorized file replaces that file; `Altered` names it. When a request ends the
transaction its temporary file is still there exactly if it was not put in place and could not be removed. A
broker that stops because an answer could not be sent leaves an open transaction's file behind.

**Update package.** Reader and writer are driven by arbitrary partial reads and writes. A call that returns an
error is the only reason for failure on a good stream, and sending through one and receiving through the other
yields the package.

Where the code and a promise differ, the model follows the code and a lemma says exactly when the promise
holds: `FoldCanonical.HiddenInRangeExact`, `FoldLayers.CountsAddUpIffApart`,
`Telemetry.BackwardInvertsForward`, `ScreenExact.TrackedExactly`, `CellCodec.EncodeDecoded`.

## Model

| member | source | states |
|---|---|---|
| FoldProjection.FinalizedApart | derivedstate/MRFoldingDerivedState.cpp:29-42 | finalized spans are sorted and strictly apart, whatever the input |
| FoldProjection.FinalizedRepresents | derivedstate/MRFoldingDerivedState.cpp:34-42 | every proper span starts inside a kept one, whatever the input |
| FoldProjection.FinalizedContains | derivedstate/MRFoldingDerivedState.cpp:34-42 | on nested-or-disjoint input every proper span lies in a kept one |
| FoldProjection.FinalizedHidesTheSameLines | derivedstate/MRFoldingDerivedState.cpp:29-42 | on nested-or-disjoint input exactly the same lines are hidden before and after |
| FoldProjection.FinalizedIdempotent | derivedstate/MRFoldingDerivedState.cpp:29-46 | finalizing twice changes nothing |
| FoldProjection.ProjectionBuilder.Finalize | derivedstate/MRFoldingDerivedState.cpp:29-46 | the in-place compaction and the prefix sums produce the finalized spans with exact totals |
| FoldProjection.Projection.HiddenLineCount | derivedstate/MRFoldingDerivedState.cpp:48-50 | the number of lines hidden by all spans |
| FoldProjection.Projection.HiddenLineCountBefore | derivedstate/MRFoldingDerivedState.cpp:52-57 | the binary search finds the number of lines hidden by the spans that end before the line |
| FoldProjection.Projection.HiddenLineCountInRange | derivedstate/MRFoldingDerivedState.cpp:59-69 | the number of lines hidden by the spans inside the range |
| FoldProjection.Projection.SpanStartingAt | derivedstate/MRFoldingDerivedState.cpp:71-75 | the span with this first line, or none such exists |
| FoldProjection.Projection.SpanEndingAt | derivedstate/MRFoldingDerivedState.cpp:77-81 | the span with this last line, or none such exists |
| FoldProjection.Projection.SpanContaining | derivedstate/MRFoldingDerivedState.cpp:83-89 | the span that holds the line, or none does |
| FoldCanonical.CanonicalIndex.SpanStartingAt | derivedstate/MRFoldingDerivedState.cpp:316-321 | the two-level search answers as one flat list of all adopted spans |
| FoldCanonical.CanonicalIndex.SpanEndingAt | derivedstate/MRFoldingDerivedState.cpp:323-328 | likewise by last line |
| FoldCanonical.CanonicalIndex.SpanContaining | derivedstate/MRFoldingDerivedState.cpp:330-335 | likewise for the span that holds a line |
| FoldCanonical.CanonicalIndex.HiddenBefore | derivedstate/MRFoldingDerivedState.cpp:337-343 | batch prefix plus one batch equals the lines hidden by all adopted spans that end before the line |
| FoldCanonical.CanonicalIndex.HiddenLineCount | derivedstate/MRFoldingDerivedState.cpp:360-362 | the number of lines hidden by all adopted spans |
| FoldCanonical.HiddenInRangeValue | derivedstate/MRFoldingDerivedState.cpp:345-358 | the exact value of the difference formula, also when a span ends at the first line of the range |
| FoldCanonical.HiddenInRangeExact | derivedstate/MRFoldingDerivedState.cpp:345-358 | it counts the lines hidden inside the range if and only if no span ends at its first line or nothing is hidden inside |
| FoldCanonical.RangeStartingAtAnEndLosesLines | derivedstate/MRFoldingDerivedState.cpp:351-356 | two spans for which the formula yields 0 where one line is hidden |
| FoldCanonical.PushedValid | derivedstate/MRFoldingDerivedState.cpp:190-199 | adopting a batch that follows all others keeps the index exact and adds its spans |
| FoldLayers.ActiveCount | derivedstate/MRFoldingDerivedState.cpp:446-456 | base minus opened plus descendants counts the lines of the closed spans, none twice |
| FoldLayers.CountsAddUpIffApart | derivedstate/MRFoldingDerivedState.cpp:446-456 | the sum is right if and only if closed base spans and descendants are apart |
| FoldLayers.ExplicitFoldAdds | derivedstate/MRFoldingDerivedState.cpp:478-484 | an explicit fold adds its lines less those already hidden inside it, unless it is covered |
| FoldLayers.VisibleLineCount | derivedstate/MRFoldingDerivedState.cpp:476-486 | before a visible line, spans and folds that ended hide exactly the hidden lines |
| FoldLayers.RowStep | derivedstate/MRFoldingDerivedState.cpp:507-511 | the row rises by one at a visible line and stays at a hidden one |
| FoldLayers.RowsIncrease | derivedstate/MRFoldingDerivedState.cpp:507-511 | the row never decreases, and is higher at a later visible line |
| FoldLayers.RowOfHeldLine | derivedstate/MRFoldingDerivedState.cpp:508-509 | all lines an outermost closed span holds share the row of its head |
| FoldLayers.RowCount | derivedstate/MRFoldingDerivedState.cpp:501-505 | lines less hidden lines is the number of rows, at least one |
| FoldLevel.LevelState.SpanStartingAt | derivedstate/MRFoldingDerivedState.cpp:402-410 | the closed span of the level that starts here, or none |
| FoldLevel.LevelState.SpanContaining | derivedstate/MRFoldingDerivedState.cpp:425-436 | of the level's closed spans that hold the line the one that starts first and then ends last, or none holds it |
| FoldLevel.LevelState.WithoutOpened | derivedstate/MRFoldingDerivedState.cpp:451-454 | the loop over opened spans subtracts exactly the opened base spans and never below zero |
| FoldLevel.LevelState.HiddenBefore | derivedstate/MRFoldingDerivedState.cpp:446-456 | the number of lines that the level's closed spans ending before the line hide |
| FoldLevel.LevelState.HiddenTotal | derivedstate/MRFoldingDerivedState.cpp:491-497 | the number of lines all the level's closed spans hide, zero exactly if none is closed |
| FoldLevel.LevelState.HiddenInFold | derivedstate/MRFoldingDerivedState.cpp:458-468 | inside an explicit fold, the number of lines the level's closed spans hide |
| FoldLevel.LevelState.FoldAdds | derivedstate/MRFoldingDerivedState.cpp:480-483 | what one explicit fold adds to the hidden lines |
| FoldLevel.LevelState.FoldsAdd | derivedstate/MRFoldingDerivedState.cpp:478-484 | what all explicit folds that ended before the line add |
| FoldLevel.EffectiveCount | derivedstate/MRFoldingDerivedState.cpp:476-486 | level and explicit folds together count the hidden lines before a visible line |
| FoldTransitions.PreviewComplete | derivedstate/MRFoldingDerivedState.cpp:234-238 | every visible span of the level from the canonical end on is in the preview |
| FoldTransitions.DescendantsComplete | derivedstate/MRFoldingDerivedState.cpp:253-261 | every visible span inside an opened one and not opened itself lies in a descendant |
| FoldTransitions.RefreshedOk | derivedstate/MRFoldingDerivedState.cpp:229-278 | rebuilding preview and descendants from the visible spans restores the hypotheses of all counts |
| FoldTransitions.RootedAfterClosing | derivedstate/MRFoldingDerivedState.cpp:372-379 | closing a span leaves every opened span inside an opened level span |
| FoldTransitions.RootedAfterOpening | derivedstate/MRFoldingDerivedState.cpp:380-390 | so does opening one |
| FoldTransitions.KeepMatching | derivedstate/MRFoldingDerivedState.cpp:211-225 | the loop keeps exactly the opened spans that pass the look-up by start line, and leaves every one rooted |
| FoldTransitions.MatchesIffReported | derivedstate/MRFoldingDerivedState.cpp:213-221 | the look-up with its three cases passes a span if and only if its fold is still reported in a batch, the preview or the viewport |
| FoldTransitions.AfterAdoption | derivedstate/MRFoldingDerivedState.cpp:186-225 | adopted spans and canonical end after the batch; the opened spans that stay are exactly those still reported |
| FoldTransitions.PreviewLeftExact | derivedstate/MRFoldingDerivedState.cpp:201-210 | what is left of the preview are its spans behind the batch, none if it was the last |
| FoldTransitions.AdoptedLevel | derivedstate/MRFoldingDerivedState.cpp:177-226 | for the active level the batch is added to what was adopted; any other level starts with the batch alone and nothing opened |
| FoldTransitions.OutermostFolds | derivedstate/MRFoldingDerivedState.cpp:145-157 | the outermost explicit folds: strictly apart, and hiding the same lines as all |
| FoldTransitions.Contains | derivedstate/MRFoldingDerivedState.cpp:302-308 | a line belongs to the level if a span opened or closed there starts at it |
| FoldTransitions.Toggled | derivedstate/MRFoldingDerivedState.cpp:368-393 | opens a closed span; closing one removes exactly it and the opened spans in its lines; the level's hypotheses are kept |
| FoldTransitions.ToggleFlips | derivedstate/MRFoldingDerivedState.cpp:368-393 | a toggled span is opened exactly if it was not; closed again it hides its lines, opened it hides none |
| FoldState.FoldingDerivedState.EffectiveHiddenBefore | derivedstate/MRFoldingDerivedState.cpp:476-486 | for every visible line exactly the number of earlier hidden lines |
| FoldState.FoldingDerivedState.EffectiveClosedFoldContaining | derivedstate/MRFoldingDerivedState.cpp:549-562 | the outermost closed span of any layer that holds the line, or none does |
| FoldState.FoldingDerivedState.VisibleLineForDocumentLine | derivedstate/MRFoldingDerivedState.cpp:507-511 | the number of visible lines up to this one, less one |
| FoldState.FoldingDerivedState.FoldedLineCount | derivedstate/MRFoldingDerivedState.cpp:501-505 | the number of visible lines of the document; never zero and never more than its lines |
| FoldState.FoldingDerivedState.HasEffectiveClosedFolds | derivedstate/MRFoldingDerivedState.cpp:488-499 | true exactly if some span is closed in some layer |
| FoldState.FoldingDerivedState.DocumentLineForVisibleLine | derivedstate/MRFoldingDerivedState.cpp:513-525 | the binary search finds the visible line of that row; beyond the last row, the last line |
| FoldState.FoldingDerivedState.RowThereAndBack | derivedstate/MRFoldingDerivedState.cpp:501-525 | every row mapped to its line and back is the same row |
| FoldState.FoldingDerivedState.LineThereAndBack | derivedstate/MRFoldingDerivedState.cpp:507-525 | a line mapped to its row and back is itself if visible, else the head of the outermost closed span |
| FoldState.FoldingDerivedState.RefreshVisibleFoldOpenStates | derivedstate/MRFoldingDerivedState.cpp:395-400 | each visible span is marked open exactly if no explicit fold or level span closes it; nothing else changes |
| FoldState.FoldingDerivedState.Refresh | derivedstate/MRFoldingDerivedState.cpp:229-278 | preview and descendants are those of the visible spans; reports a change exactly if one differs |
| FoldState.FoldingDerivedState.RebuildEffectiveClosedFolds | derivedstate/MRFoldingDerivedState.cpp:145-157 | the effective folds are apart and hide the same lines as all explicit folds |
| FoldState.FoldingDerivedState.ClearClosedFolds | derivedstate/MRFoldingDerivedState.cpp:139-143 | afterwards no line is hidden |
| FoldState.FoldingDerivedState.ClearDocumentFoldLevel | derivedstate/MRFoldingDerivedState.cpp:280-292 | afterwards no span of the level is closed |
| FoldState.FoldingDerivedState.BeginDocumentFoldLevel | derivedstate/MRFoldingDerivedState.cpp:163-175 | a level starts with nothing adopted and nothing opened, and all invariants hold |
| FoldState.FoldingDerivedState.ToggleDocumentFoldLevelSpan | derivedstate/MRFoldingDerivedState.cpp:368-393 | when it toggles; then the span flips between opened and closed, with its lines hidden again when closed, exactly the opened spans in it are forgotten, and preview and descendants are those of the visible spans |
| FoldState.FoldingDerivedState.AdoptDocumentFoldLevelProjection | derivedstate/MRFoldingDerivedState.cpp:177-227 | on the active level the new spans are added to the old unless stale, the canonical end is the larger one and exactly the opened spans still reported stay; on another level only the new spans, nothing opened; preview and descendants follow |
| CoprocessorRuns.FitsNext | coprocessor/MRCoprocessorWorkerLifecycle.cpp:18-308 | every step keeps lanes, listings and stages in step with each other |
| CoprocessorRuns.ConservedNext | coprocessor/MRCoprocessorWorkerLifecycle.cpp:29-270 | every step keeps each accepted id in exactly one place |
| CoprocessorRuns.FlagsNext | coprocessor/MRCoprocessor.cpp:323-375 | every step keeps the cancel flags those of the tasks that are not finished |
| CoprocessorRuns.CountedNext | coprocessor/MRCoprocessorTelemetry.cpp:101-174 | every step keeps the counters equal to queued tasks, running tasks and undisposed results |
| CoprocessorRuns.NoGuardStopsADecrement | coprocessor/MRCoprocessorTelemetry.cpp:101-171 | whenever an event lowers a counter, the counter is above zero |
| CoprocessorRuns.EventsAreTold | coprocessor/MRCoprocessorTelemetry.cpp:60-174 | the recorded events account for every change of the counters |
| CoprocessorRuns.RunsKeepInv | coprocessor/MRCoprocessorWorkerLifecycle.cpp:29-270 | all of these hold in every reachable state |
| CoprocessorRuns.ExactlyOnce | coprocessor/MRCoprocessor.cpp:48-116 | in every reachable state an accepted task is pending, or has one final result, or one discard, and only one of these |
| CoprocessorRuns.ShutdownLeavesNothing | coprocessor/MRCoprocessorWorkerLifecycle.cpp:92-140 | when shutdown has returned nothing is queued, running, pending or flagged, all counters are zero and each task has one recorded outcome |
| CoprocessorRuns.NothingAcceptedAfterShutdown | coprocessor/MRCoprocessor.cpp:48-116 | from then on no submission is accepted |
| CoprocessorTasks.CancelledNext | coprocessor/MRCoprocessor.cpp:323-344 | exactly which tasks an action cancels: the registered one named, all of a lane that is stopped, or all registered |
| CoprocessorTasks.CancelTaskExactly | coprocessor/MRCoprocessor.cpp:323-344 | cancelling a task sets its flag if it is registered and changes nothing else |
| CoprocessorTasks.StoppedRuns | coprocessor/MRCoprocessorWorkerLifecycle.cpp:42-52 | in every reachable state every task of a stopped lane is cancelled |
| CoprocessorTasks.ShutdownCancelsAll | coprocessor/MRCoprocessorWorkerLifecycle.cpp:92-140 | once shutdown waits for the workers every unfinished task is cancelled; only cancelled tasks are ever discarded |
| CoprocessorTasks.CancelledIsNotExecuted | coprocessor/MRCoprocessorWorkerLifecycle.cpp:205-215 | a cancelled task stays cancelled, and is never called if it was not called yet |
| CoprocessorTasks.ResultsTellTheTruth | coprocessor/MRCoprocessorWorkerLifecycle.cpp:208-245 | a final result has the status its task ended with; without a call that is cancelled, and then the task was cancelled |
| CoprocessorTasks.CancelledEnds | coprocessor/MRCoprocessorWorkerLifecycle.cpp:205-245 | a task cancelled before it is called has, once it is not pending, one discard or one final result of status cancelled |
| CoprocessorTasks.TakenInOrder | coprocessor/MRCoprocessor.cpp:519-524 | a lane takes its tasks in the order given and passes none over |
| CoprocessorProgress.WorkerGoesOn | coprocessor/MRCoprocessorWorkerLifecycle.cpp:160-270 | in every reachable state what a worker can do next; a started task is called exactly if it is not cancelled |
| CoprocessorProgress.PumpGoesOn | coprocessor/MRCoprocessor.cpp:214-320 | any queued result can be taken while pumping is allowed, and what was taken can be disposed of |
| CoprocessorProgress.SubmitterGoesOn | coprocessor/MRCoprocessor.cpp:30-116 | whoever has the worker mutex can go on; with it free new work is let in exactly until shutdown, and lanes are retired and reaped at any time |
| CoprocessorProgress.SubmissionGoesThrough | coprocessor/MRCoprocessor.cpp:76-116 | an unrefused submission takes the next number, registers its flag and puts the task at the end of the lane's queue |
| CoprocessorProgress.OneShotEnds | coprocessor/MRCoprocessorWorkerLifecycle.cpp:160-270 | a one-shot lane takes one task and never waits again |
| CoprocessorProgress.ShutdownCanFinish | coprocessor/MRCoprocessorWorkerLifecycle.cpp:92-140 | from every reachable state of a shutdown some continuation completes it |
| CoprocessorRuns.RunsLogCleanly | coprocessor/MRCoprocessorTelemetry.cpp:96-174 | over every run the event log can be undone step by step |
| CoprocessorRuns.OnlyMovingMatters | coprocessor/MRCoprocessorTelemetry.cpp:96-174 | times, and events of lanes that are created, assigned, idle, stopping or finished, do not change whether a log can be undone |
| CoprocessorRuns.PeaksAfterRun | coprocessor/MRCoprocessorTelemetry.cpp:288-373 | after every run, whatever the times and whatever other events share the log, a snapshot reports the true peaks of the counters since the oldest event of the window that is still held |
| Telemetry.BackwardInvertsForward | coprocessor/MRCoprocessorTelemetry.cpp:305-368 | undoing an event restores the counters if and only if its decrement was not stopped at zero |
| Telemetry.UndoFindsThePast | coprocessor/MRCoprocessorTelemetry.cpp:305-366 | undoing a whole log visits the true counters if and only if no decrement was stopped |
| Telemetry.PeaksSince | coprocessor/MRCoprocessorTelemetry.cpp:291-373 | the reverse loop returns the true maxima of the three counters since the cutoff |
| Telemetry.LifecycleTelemetry.RecentPeaks | coprocessor/MRCoprocessorTelemetry.cpp:288-373 | the peaks reported are those over exactly the events in the window |
| Telemetry.LifecycleTelemetry.Record | coprocessor/MRCoprocessorTelemetry.cpp:96-174 | an event updates the counters and enters the log, which forgets its oldest entry when full |
| Telemetry.RecordLog | coprocessor/MRCoprocessorTelemetry.cpp:96-174 | a whole log recorded leaves its newest 4096 events and the past they can be replayed to |
| Telemetry.PeaksOfLog | coprocessor/MRCoprocessorTelemetry.cpp:288-373 | the peaks reported after a log are peaks of the whole past, not only of the kept part |
| Scheduler.ScanWouldDoNothing | app/MRRuntimeScheduler.cpp:326-331 | whenever the pump returns early a full scan would find nothing due and change nothing |
| Scheduler.RuntimeScheduler.Pump | app/MRRuntimeScheduler.cpp:316-365 | a consumer gets one tick exactly if every earlier tick of it was an interval ago, is then next due an interval from now, and starts exactly if it has no unfinished session; all others stay as they were; the cached time is the exact minimum |
| Scheduler.DueIffIntervalOver | app/MRRuntimeScheduler.cpp:338-350 | the stored due time has passed exactly if an interval has passed since every tick so far |
| Scheduler.ScanPumps | app/MRRuntimeScheduler.cpp:332-362 | the ticks, due times and consumers to start of a scan, said without the scan |
| Scheduler.SpacedAfterTicks | app/MRRuntimeScheduler.cpp:340-355 | over any run two ticks of one consumer are at least its interval apart |
| Scheduler.TickedAfterScan | app/MRRuntimeScheduler.cpp:340-350 | after a scan each next due time is an interval after some tick of the consumer and no less after any |
| Scheduler.ScanKeeps | app/MRRuntimeScheduler.cpp:332-364 | a scan keeps the cache, interval and spacing invariants |
| Scheduler.AllVisited | app/MRRuntimeScheduler.cpp:332-362 | each due consumer gets one tick, due or skipped, and only one without unfinished session is to start, in whatever order they are listed |
| Scheduler.RuntimeScheduler.Register | app/MRRuntimeScheduler.cpp:226-240 | a valid registration adds an undue consumer under a new number and drops the cached time; an invalid one changes nothing |
| Scheduler.RuntimeScheduler.Remove | app/MRRuntimeScheduler.cpp:242-252 | removes exactly this consumer and drops the cached time, or changes nothing |
| Scheduler.RuntimeScheduler.RecordStartResult | app/MRRuntimeScheduler.cpp:138-156 | an accepted start blocks the consumer with the session exactly if the snapshot was active; a refused one changes no consumer; either is logged |
| Scheduler.RuntimeScheduler.FreeConsumer | app/MRRuntimeScheduler.cpp:108-117 | the first listed consumer that waits for the session, and no other, waits no longer |
| Scheduler.RuntimeScheduler.RecordFinishResults | app/MRRuntimeScheduler.cpp:99-120 | result by result, consumers are freed as `FreedAll` says, and only finished ticks are logged |
| SchedulerSessions.FreedIsUnblocked | app/MRRuntimeScheduler.cpp:103-118 | since no two consumers wait for one session, the loops free exactly the consumers whose session is among the results, in whatever order they are listed |
| SchedulerSessions.ResultsFreeAsModelled | app/MRRuntimeScheduler.cpp:99-129 | this holds in every reachable state of the session protocol |
| SchedulerSessions.RunsKeepInv | app/MRRuntimeScheduler.cpp:99-156 | every reachable state keeps: numbers given once, results only of finished sessions, unfinished sessions block, chosen consumers are free, unseen results will be seen |
| SchedulerSessions.UnfinishedSessionsBlock | app/MRRuntimeScheduler.cpp:138-156 | whenever a pump can begin, an unfinished session started for a consumer is its active session |
| SchedulerSessions.NeverStartedTwice | app/MRRuntimeScheduler.cpp:316-403 | over every run no consumer with an unfinished session is chosen, or started when its turn comes outside the lock |
| SchedulerSessions.BlockedOnlyByForgottenResults | mrmac/vm/MRVMExecSessions.cpp:674-692 | once all notified threads are done, a consumer is blocked only by an unfinished session or by one whose result is no longer remembered |
| SchedulerSessions.ForgottenStaysBlocked | app/MRRuntimeScheduler.cpp:99-129 | a consumer blocked by a forgotten result stays so through every later step, until it is removed |
| SchedulerSessions.RescanExact | app/MRRuntimeScheduler.cpp:155 | looking again after a start unblocks the consumer if and only if the session's result is in the list read |
| SchedulerSessions.SomeConsumerIsBlockedForGood | mrmac/vm/MRVMExecSessions.cpp:690 | a run in which 32 other results arrive during the start and the consumer is blocked for good |
| Scheduler.RuntimeScheduler.NoteStarted | app/MRRuntimeScheduler.cpp:295-304 | the session becomes the consumer's unfinished one |
| Scheduler.RuntimeScheduler.NoteFinished | app/MRRuntimeScheduler.cpp:306-314 | only the unfinished session itself ends it |
| ScreenShadow.MacroScreenModel.FillRect | coprocessor/MRCoprocessorDeferredPlayback.cpp:164-170 | the nested loops fill exactly the rectangle, with column `w` landing in the next row; report a change exactly if a cell changed, and exactly whether a write left the vector |
| ScreenShadow.MacroScreenModel.ApplyWrite | coprocessor/MRCoprocessorDeferredPlayback.cpp:198-213 | the text clipped to its row is drawn; a change is reported exactly if a cell changed |
| ScreenShadow.MacroScreenModel.ApplyPutBox | coprocessor/MRCoprocessorDeferredPlayback.cpp:215-267 | frame, title and shadow as described cell by cell; always reports a change; exactly for which boxes the shadow leaves the vector |
| ScreenShadow.MacroScreenModel.ApplyClrLine | coprocessor/MRCoprocessorDeferredPlayback.cpp:269-298 | the clipped stretch, or the cursor's row, is blanked in the colour of the row's head |
| ScreenShadow.MacroScreenModel.ApplyScroll | coprocessor/MRCoprocessorDeferredPlayback.cpp:326-358 | rows move by one and the freed row is blanked; a change is reported exactly if a cell changed |
| ScreenShadow.MacroScreenModel.ApplyClearScreen | coprocessor/MRCoprocessorDeferredPlayback.cpp:172-196 | all cells blank, cursor home, numbers forgotten |
| ScreenShadow.MacroScreenModel.ShouldRenderAndProject | coprocessor/MRCoprocessorDeferredPlayback.cpp:377-407 | the loops over the flat vector compute `Project` for every command, and say which commands leave the vector |
| ScreenShadow.MacroScreenModel.SeedFromRuntime | coprocessor/MRCoprocessorDeferredPlayback.cpp:102-116 | no cell is known afterwards |
| ScreenSafety.StillScrollAgrees | coprocessor/MRCoprocessorDeferredPlayback.cpp:346-357 | a scroll that leaves the shadow screen unchanged leaves the screen unchanged, known cells or not |
| ScreenSafety.TrackedIsSafe | coprocessor/MRCoprocessorDeferredPlayback.cpp:147-407 | a tracked command keeps known cells, numbers and cursor true of the screen, and if skipped would not have changed a cell |
| ScreenSafety.RepeatedIsSkipped | coprocessor/MRCoprocessorDeferredPlayback.cpp:377-407 | a command that sets rather than moves is skipped when it is given again at once |
| ScreenCells.AttributeIs | coprocessor/MRCoprocessorDeferredPlayback.cpp:134-137 | foreground and background share the byte, with background 0 the foreground has all of it |
| ScreenCells.BoxLooks | mrmac/ui/conventional/MRVMScreenState.cpp:609-652 | corners, edges, blank inside and the title in the middle of the upper edge, cell by cell |
| ScreenCells.ShadowLooks | mrmac/ui/conventional/MRVMScreenState.cpp:647-650 | the shadow is one cell to the right and one below, in its own colour |
| ScreenCells.BoxOpenedAndClosed | mrmac/ui/conventional/MRVMScreenState.cpp:748-795 | closing a box restores its lines and columns, and its shadow's, to what they were when it was opened, and nothing else |
| ScreenCells.ScrolledMoves | mrmac/ui/conventional/MRVMScreenState.cpp:701-734 | each row moves by one in the direction given and the freed row is blank |
| ScreenCells.FieldLooks | mrmac/ui/conventional/MRVMScreenState.cpp:736-746 | a text right-aligned in a blank field, the last 24 cells of the bottom row |
| ScreenCells.NumbersLook | mrmac/ui/conventional/MRVMScreenState.cpp:736-746 | both numbers in that field, one that is not set as 0 |
| ScreenExact.BoxExact | coprocessor/MRCoprocessorDeferredPlayback.cpp:261-264 | a box is safe on every agreeing screen if and only if its shadow fits on both sides or neither, or the stray cells are shaded already |
| ScreenExact.ClrLineExact | coprocessor/MRCoprocessorDeferredPlayback.cpp:279-298 | clear-line with arguments is safe if and only if the row's head is known and the renderer blanks nothing else that matters |
| ScreenExact.KillBoxExact | mrmac/ui/conventional/MRVMScreenState.cpp:748-795 | closing a box is safe on every agreeing screen if and only if every known cell shows the numbers, whatever they may be |
| ScreenExact.NumbersExact | mrmac/ui/conventional/MRVMScreenState.cpp:736-746 | a line or column number is safe if and only if, whatever the other number may be, each cell drawn is known to show it or unknown while the number is rendered |
| ScreenExact.CursorLineExact | coprocessor/MRCoprocessorDeferredPlayback.cpp:269-298 | clear-line without arguments is safe if and only if the row and its colour are known, or nothing known can be blanked wrongly |
| ScreenExact.TrackedExactly | coprocessor/MRCoprocessorDeferredPlayback.cpp:377-407 | for every command and every shadow screen: tracked if and only if safe on every screen that agrees |
| ScreenRuns.RenderIgnores | mrmac/ui/conventional/MRVMScreenState.cpp:609-795 | the renderer's cells depend on the cursor only for clear-line without arguments and on saved boxes only when one is closed |
| ScreenRuns.PlayedKeepsInv | coprocessor/MRCoprocessorDeferredPlayback.cpp:735-773 | over any sequence of commands, failures, reseeding and foreign drawing the shadow screen stays true |
| ScreenRuns.SkippingIsSafe | coprocessor/MRCoprocessorDeferredPlayback.cpp:760-771 | if every command was tracked and found the same cursor or saved box, every cell shows what it would show with nothing skipped |
| ScreenFailures.SkippingAfterKillBox | mrmac/ui/conventional/MRVMScreenState.cpp:773-786 | box, close, write: the write is skipped and the cell differs from full rendering |
| ScreenFailures.SkippingUnderHalfAShadow | coprocessor/MRCoprocessorDeferredPlayback.cpp:261-264 | box with half a shadow, then that shade written at the stray cell: skipped, and the cell differs |
| ScreenFailures.SkippingLeftOfTheScreen | coprocessor/MRCoprocessorDeferredPlayback.cpp:279-290 | a clear-line that starts left of the screen is skipped and the first cell stays |
| ScreenFailures.SkippingOverTheNumbers | coprocessor/MRCoprocessorDeferredPlayback.cpp:312-317 | a second clear-screen is skipped and leaves the line number on the screen |
| ScreenFailures.SkippingLeavesTheCursor | coprocessor/MRCoprocessorDeferredPlayback.cpp:172-196 | after a skipped clear-screen a clear-line without arguments blanks another row than with full rendering |
| Playback.LaterTurns | coprocessor/MRCoprocessorDeferredPlayback.cpp:723-750 | no command is consumed twice, and none after one of a later playback |
| Playback.AllEarlierTurns | coprocessor/MRCoprocessorDeferredPlayback.cpp:747-750 | before a command is consumed all earlier ones of its playback were |
| Playback.EarlierPlaybacksRan | coprocessor/MRCoprocessorDeferredPlayback.cpp:723-782 | every playback before the one that had the last turn has had all its commands consumed |
| Playback.HistoryIsSafe | coprocessor/MRCoprocessorDeferredPlayback.cpp:760-771 | of every history a queue can have: if all its commands were tracked the screen is that of full rendering |
| Playback.StillAccounted | coprocessor/MRCoprocessorDeferredPlayback.cpp:747-773 | applied, skipped, failed and delays add up to the index after every command |
| Playback.ConsumedRuns | coprocessor/MRCoprocessorDeferredPlayback.cpp:747-773 | a consumed command keeps order, counts and the tie of commands, events, shadow screen and screen |
| Playback.ConsumedExactly | coprocessor/MRCoprocessorDeferredPlayback.cpp:748-772 | the counts, delay and shadow screen after one command, by command and renderer alone |
| Playback.PreparedRuns | coprocessor/MRCoprocessorDeferredPlayback.cpp:728-743 | the epoch check throws away a shadow screen that somebody else's drawing made untrue, and no other |
| Playback.PlaybackQueue.Enqueue | coprocessor/MRCoprocessorDeferredPlayback.cpp:698-709 | a playback goes behind all others under a new number; an empty list is ignored |
| Playback.PlaybackQueue.Disturb | coprocessor/MRCoprocessorDeferredPlayback.cpp:735-742 | drawing by others is noted and counted |
| Playback.PlaybackQueue.Prepare | coprocessor/MRCoprocessorDeferredPlayback.cpp:728-743 | the playback is no longer waiting and has a shadow screen that the history accounts for |
| Playback.PlaybackQueue.Consume | coprocessor/MRCoprocessorDeferredPlayback.cpp:748-772 | one command: a delay with its resume time, skipped exactly if the shadow screen says so, else rendered and applied or failed as the renderer answers; screen, counts, epoch and history after it |
| Playback.PlaybackQueue.RunSlice | coprocessor/MRCoprocessorDeferredPlayback.cpp:747-773 | the turns added are consecutive commands of this playback, each judged and rendered on its own tick, as many as the budget used; it ends early only if the clock, asked in this slice, was not before the deadline or the last turn is a delay |
| Playback.PlaybackQueue.Settle | coprocessor/MRCoprocessorDeferredPlayback.cpp:776-781 | a playback is erased exactly if all commands are consumed and no delay is pending, else stored |
| Playback.PlaybackQueue.RunFirst | coprocessor/MRCoprocessorDeferredPlayback.cpp:728-784 | one slice of the first playback, which is then erased or stored; if it is not done, why, and the time to come back |
| Playback.PlaybackQueue.RunNext | coprocessor/MRCoprocessorDeferredPlayback.cpp:723-784 | the same, after asking whether the budget is spent, the time is up or the delay is not over |
| Playback.PlaybackQueue.Drain | coprocessor/MRCoprocessorDeferredPlayback.cpp:723-786 | playback after playback; one is left only with a reason from the answers asked in this pump, and due at its resume time or a millisecond after an answer |
| Playback.PlaybackQueue.Pump | coprocessor/MRCoprocessorDeferredPlayback.cpp:717-786 | at most 48 commands in order, each begun before the deadline and with its own answer of the surroundings; nothing at all before the delay of the first playback is over; stops before the queue is empty only if the budget is spent, the clock asked in this pump was not before the deadline, or a delay just came or was not over, and returns the resume time or a clock answer plus one accordingly, 0 exactly if the queue is empty; the screen is that of the history, and of full rendering if all was tracked |
| CellCodec.DecodeEncoded | coprocessor/MRCoprocessorDeferredPlayback.cpp:531-550 | decoding encoded cells is the identity |
| CellCodec.EncodeDecoded | coprocessor/MRCoprocessorDeferredPlayback.cpp:531-550 | encoding decoded bytes is the identity if and only if they are whole triples ending in 0 or 1 |
| CellCodec.EncodeCells | coprocessor/MRCoprocessorDeferredPlayback.cpp:531-541 | the loop writes three bytes a cell |
| CellCodec.DecodeCells | coprocessor/MRCoprocessorDeferredPlayback.cpp:543-550 | the loop reads whole triples and drops the rest |
| SaveBroker.BackupNameDiffers | app/MRPrivilegedFileBroker.cpp:349-355 | a backup never has the name of its file |
| SaveBroker.BackupOf | app/MRPrivilegedFileBroker.cpp:349-355 | an extension is replaced by bak, kept and followed by it if it is bak already; without one bak is added |
| SaveBroker.TemporaryIsNoBackup | app/MRPrivilegedFileBroker.cpp:367-378 | a temporary name is never a backup name |
| SaveBroker.ReplacedWell | app/MRPrivilegedFileBroker.cpp:456-473 | new content in place and old content under the backup name, or the target as it was if the rollback works and the temporary file untouched |
| SaveBroker.ReplacedExactly | app/MRPrivilegedFileBroker.cpp:456-473 | when the renames succeed, and what each failing one leaves behind |
| SaveBroker.CommittedExactly | app/MRPrivilegedFileBroker.cpp:441-488 | the new content is in place if and only if sync, check, ownership and all renames worked; the answer for each failure; the baseline afterwards |
| SaveBroker.CommittedWell | app/MRPrivilegedFileBroker.cpp:434-488 | a target that does not match is left alone; otherwise installed or not as above; success exactly if installed and reopened, and then the target matches what the broker remembers |
| SaveBroker.BegunWell | app/MRPrivilegedFileBroker.cpp:407-432 | only one transaction at a time and only on a matching target; a success adds one file under a new name, a refusal changes no file |
| SaveBroker.BegunExactly | app/MRPrivilegedFileBroker.cpp:407-432 | when a transaction starts, under which name, and the answer to each refusal |
| SaveBroker.HandledExactly | app/MRPrivilegedFileBroker.cpp:504-578 | the answer to every request, and what requests that do not save change |
| SaveBroker.HandledEnds | app/MRPrivilegedFileBroker.cpp:555-574 | after commit or abort no transaction is open, and its temporary file exists if and only if it was not installed and could not be removed |
| SaveBroker.NextChanges | app/MRPrivilegedFileBroker.cpp:493-578 | one event changes a name only from outside or as target or backup of a commit whose target matched |
| SaveBroker.NextTemporaries | app/MRPrivilegedFileBroker.cpp:493-578 | one event leaves a temporary file only if it is the transaction's, existed before, could not be removed by the abort, failed commit or given-up begin that had to, or is a name a commit altered |
| SaveBroker.FilesChangeOnlyByMatchingCommits | app/MRPrivilegedFileBroker.cpp:490-582 | over every stream: a file that differs was changed from outside, or by a commit event that found its target unchanged |
| SaveBroker.FilesAtTheEnd | app/MRPrivilegedFileBroker.cpp:580-581 | the same after the transaction is cleared at the end of the stream |
| SaveBroker.TemporariesAreAccountedFor | app/MRPrivilegedFileBroker.cpp:490-582 | over every stream: each temporary file that exists is the open transaction's, was there before, or has an event that explains it |
| SaveBroker.NoTemporaryRemains | app/MRPrivilegedFileBroker.cpp:580-581 | at the end of the stream, if removals work, no temporary file is left that was not there before or named by a commit |
| SaveBroker.SavedAsWritten | app/MRPrivilegedFileBroker.cpp:407-488 | begin, write, commit: if everything works the file has what was written, the backup what it had before, nothing else differs, and the broker knows the file as it is |
| SaveBroker.Broker.ClearSaveTransaction | app/MRPrivilegedFileBroker.cpp:357-365 | no transaction is open, its temporary file is gone unless the removal failed, nothing else changes |
| SaveBroker.Broker.CreateTemporaryFile | app/MRPrivilegedFileBroker.cpp:367-378 | creates one new file under the first free of a hundred names, or changes no file |
| SaveBroker.Broker.BeginSave | app/MRPrivilegedFileBroker.cpp:407-432 | state and answer are those of `Begun` |
| SaveBroker.Broker.Replace | app/MRPrivilegedFileBroker.cpp:456-473 | directory and success are those of `Replaced` |
| SaveBroker.Broker.CommitSave | app/MRPrivilegedFileBroker.cpp:434-488 | state and answer are those of `Committed` |
| SaveBroker.Broker.Handle | app/MRPrivilegedFileBroker.cpp:493-578 | state and answer are those of `Handled`; whether the answer could be sent |
| SaveBroker.Broker.Serve | app/MRPrivilegedFileBroker.cpp:490-582 | the final state is that of the run over the served events, cleared at the end of the stream; code 1 exactly if an answer could not be sent |
| UpdateProtocol.EncodeUint64 | app/MRUpdateInstall.cpp:335-337 | the loop yields the eight bytes, lowest first |
| UpdateProtocol.DecodeUint64 | app/MRUpdateInstall.cpp:339-343 | the loop yields the number of the eight bytes |
| UpdateProtocol.DecodeEncoded | app/MRUpdateInstall.cpp:335-343 | decoding an encoded number below 2^64 yields it |
| UpdateProtocol.EncodeDecoded | app/MRUpdateInstall.cpp:335-343 | encoding decoded bytes yields them |
| UpdateProtocol.ParseWritten | app/MRUpdateInstall.cpp:396-413 | every package with all parts non-empty and within limits is read back as it was |
| UpdateProtocol.WrittenParsed | app/MRUpdateInstall.cpp:598-632 | every accepted stream is byte for byte what the writer makes of the package read |
| UpdateProtocol.ParsedIffWritten | app/MRUpdateInstall.cpp:592-632 | a stream is read as a package if and only if the package fits and is written as that stream |
| UpdateProtocol.Source.ReadAll | app/MRUpdateInstall.cpp:323-333 | however the bytes arrive, all of them; failure exactly if a read failed or the bytes ran out |
| UpdateProtocol.Source.ReadVector | app/MRUpdateInstall.cpp:592-596 | a part within its limit; failure exactly if it is not, a read failed or the bytes ran out |
| UpdateProtocol.Source.ReadUpdateProtocol | app/MRUpdateInstall.cpp:598-632 | refusal if one of its reads failed, else the parsed package or refusal as the bytes alone decide |
| UpdateProtocol.Sink.WriteAll | app/MRUpdateInstall.cpp:288-298 | all bytes, or a prefix; failure exactly if a write failed |
| UpdateProtocol.Sink.WriteProtocol | app/MRUpdateInstall.cpp:396-413 | magic, lengths and parts, or a prefix of them; failure exactly if a write failed |
| UpdateProtocol.SendAndReceive | app/MRUpdateInstall.cpp:396-632 | a fitting package written and read back through any partial writes and reads arrives as it was |
| WarmRanges.WarmIffRemembered | derivedstate/MRSyntaxDerivedState.cpp:33-71 | after any run a line is warm for a document and language if and only if it was remembered for them and not forgotten since |
| WarmRanges.NormalizeRanges | derivedstate/MRSyntaxDerivedState.cpp:106-116 | sorted, non-empty, non-touching ranges with the same lines, from any list |
| WarmRanges.CutFrom | derivedstate/MRSyntaxDerivedState.cpp:79-91 | exactly the lines before the given one stay, normal form kept |
| WarmRanges.Covered | derivedstate/MRSyntaxDerivedState.cpp:93-104 | true if and only if every line of the range is held |
| WarmRanges.SyntaxDerivedState.RememberWarmedLineRange | derivedstate/MRSyntaxDerivedState.cpp:39-43 | union with the new lines, after dropping those of another owner |
| WarmRanges.SyntaxDerivedState.InvalidateWarmedLineRangesFrom | derivedstate/MRSyntaxDerivedState.cpp:45-51 | cut-off for the owner, everything dropped for anybody else |
| WarmRanges.SyntaxDerivedState.WarmedLineRangeCovered | derivedstate/MRSyntaxDerivedState.cpp:53-56 | subset of the warm lines, for the owner only |
| WarmRanges.CoveredAfterRun | derivedstate/MRSyntaxDerivedState.cpp:33-103 | after any run of calls a non-empty range is covered if and only if each line was remembered and not forgotten |
| LineSplitter.SplitJoined | dialogs/MRAcquireDialog.cpp:356-367 | cutting a text anywhere and keeping the tail yields the same lines |
| LineSplitter.FirstFinds | dialogs/MRAcquireDialog.cpp:348-354 | the list has each named path once and grows only at its end |
| LineSplitter.AcquireOutput.AddResolvedPath | dialogs/MRAcquireDialog.cpp:348-354 | a resolvable path not seen before is appended |
| LineSplitter.AcquireOutput.Accept | dialogs/MRAcquireDialog.cpp:356-367 | the complete lines are taken, the tail holds no newline, and a flush takes the tail as well |
| LineSplitter.Collect | dialogs/MRAcquireDialog.cpp:356-367 | however the output is cut, after the final flush the list is that of the whole output |

## Left out

- Turbo Vision views, menus, dialogs, palettes, key bindings and command routing.
- Threads, condition variables, affinity and clocks: the coprocessor is a transition system, times are arguments.
- Network, archives, signatures, sudo, process start and file descriptors: only abstract directories and byte streams are kept.
- Myers diff, piece table, macro compiler and virtual machine, syntax and fold analysers.
- Folding: one document version per object; the fields for texts, gutter and display levels, `clearVisibleState`, and the two queries for an effective fold starting or ending at a line.
- Folding: line numbers are unbounded except for the saturation at the largest `size_t` in the canonical range query; equal spans are sorted stably.
- Coprocessor: during shutdown the stop and clear steps pass over a lane that a submitting thread has reaped (coprocessor/MRCoprocessor.cpp:51); the program keeps raw pointers to such lanes and may then touch freed memory.
- Coprocessor: stopping a lane sets its flag and those of its tasks in one step.
- Coprocessor: external sources, one-shot statistics and deferred adoption; only streaming payloads are posted while a task runs; a task returns its own id or 0; pump and the first shutdown call run on one thread; tasks are submitted to registered workers or as one-shots.
- Telemetry.LifecycleTelemetry.RecentPeaks: the other fields of a snapshot (totals by kind, worker list, times) are not modelled.
- Scheduler: running the macros themselves, removal by owner, 64-bit overflow of the due time; the order in which the store lists consumers is a parameter.
- Scheduler: the session protocol assumes that a start which returns an inactive session has published its result, that a refused start leaves no unfinished session, and that the pump is not entered again while it runs. The run in `SomeConsumerIsBlockedForGood` assumes a publisher on another thread: 32 results arrive between a start and its recording, which cannot happen while starts and publications share the interface thread. `NoteStarted` and `NoteFinished` are modelled, but no other part of the program calls them.
- Shadow screen: the physical projection of cells, dirty rows, flushing, the desktop canvas and the message line; the screen size changes only together with the mutation count; window commands leave the macro cells and the application cursor alone; a box is closed only after something was drawn since the last change of size.
- Shadow screen: what a write outside the vector of cells does to the memory behind it; the model leaves such a write out and reports it.
- Playback: the hash store behind the queue is a list in the order of its numbers; reading back damaged entries and the strings that hold the counts are not modelled; the screen cells are, in `CellCodec`.
- Save broker: the sockets and packets, path resolution, ownership and attributes of the new file; a commit is one step, so a change by another process between its check and its rename is not modelled; the editor writes only while the transaction is open; other processes keep off the broker's temporary files.
- Update: everything after the package is read (hashes, staging, installation order).
- Warm ranges: the token cache and the checkpoints of the same object.
- Acquire dialog: decoding a line and finding the readable file are one fixed function.
