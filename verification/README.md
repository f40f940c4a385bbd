# Verified model of the OpenPPX engine rooms

OpenPPX runs Agents on a Node. This project models the parts of it in which state, order and concurrency
decide whether the product keeps its promises, and proves those promises for every input, every run and
every interleaving:

- **Automations** (`openppx/automation`). Definitions, runs and an append-only event log; admission by
  `skip`, `queue-one` or `parallel-with-limit`; coroutines that start, settle, drain the queue and are lost
  in a crash. `AutomationFacts` says what a store call makes of the rows. `RunSlices` says what one step of the event
  loop or of a caller in another thread does: the insertion of a row, its submission or its skip mark, a start, the
  end of a turn, and the drain after it are separate steps, and anything may come between them. `RunMoves` proves
  exactly what each move keeps and `RunTheorems` what every trace keeps; `RunBounds` (how many runs) and `RunWakeups`
  (no lost wake-up) hold in every mode. `RunTraces` and `RunRestarts` reach each broken promise from an empty Node,
  `RunAges` is about the order of age, and `RunPolicies` says which policies keep one run at a time. `Occurrences`
  splits the callers further, at every store call. `Schedules`, `ScheduleStartup` and `ScheduleCalls` are about the
  derived Cron jobs, `ScheduleClients` and `ScheduleOverlaps` about service calls that overlap, `Monitor` about
  deliveries. `AutomationRows`, `RunOutcomes` and `ScheduleOutcomes` say what each call and each move leaves in the
  rows, column by column.
- **Configuration** (`openppx/config`, `openppx/agents`). Structural differences and their lifecycle effect,
  compare-and-swap writes with previews outside the lock, and two-phase publication of Agents. `AgentRuns` is about
  whole operations with crashes between, `AgentClients` about operations that overlap step by step. `DiffOrder` is
  about the order of a difference; `ConfigOutcomes` and `AgentOutcomes` say what each operation answers and stores.
- **Shell chains** (`openppx/core/exec_policy.py`). A quote-aware lexer on positions, the one-pass splitter
  that refines it, and joining. `ChainModes` says where a command is cut, by the flags alone.
- **Strict tool schemas** (`openppx/core/deepseek_litellm.py`). The rewrite, what it leaves, and what it means
  under JSON Schema draft-07 (core, section 8.3; validation, sections 6.1.1 and 6.4 to 6.7), with references within the
  document as JSON pointers (RFC 6901, sections 3 to 6). `SchemaOutcomes` lists the rewrite key by key.
- **Snapshot references and slash commands** (`openppx/browser/playwright_runtime.py`, `openppx/actions`), with what
  is given, bound and listed in `SnapshotOutcomes` and `ActionOutcomes`.

Components that change things in place are classes or methods with loops (`AutomationStore`,
`AutomationService`, `Scheduler`, `CronTable`, `MonitorState`, `ConfigService`, `AgentLifecycleService`,
`ActionRegistry`, `ScanChain`, `EnforceStrict`, `BuildSnapshotRefs`); each is proved equal to a function on values, and
the theorems are about those functions. A store call or a locked write is one step, and a refused one changes
nothing. Revisions and output digests are functions assumed to be injective where a lemma says so.

`dafny verify dfyconfig.toml` checks everything.

## Where the code does not keep a promise

Each of these is a lemma, with the condition under which the promise does hold:

- A request prepared from another thread decides on a count that may be old when its row is inserted, and inserts,
  marks and submits in separate steps. Where all is well, the insertion keeps all well if and only if the row is
  rejected, or is to be submitted where there is no coroutine and no running run, or waits behind somebody with room
  for it (`RunTraces.StaleCountExactly`). A submission then keeps its promise, and the mark of a rejected row is
  harmless if and only if no drain has taken the row up (`RunMoves.ConcludeExactly`). Four traces: two threads that
  both counted nothing both submit (`RunTraces.BothCountNothing`); a run inserted behind one that has finished waits
  for nobody (`RunTraces.LateBehindNobody`); a rejected row is started by the drain before its mark, and the next
  request is submitted beside it (`RunTraces.RejectedInFlight`); a request between the end of a turn and its drain
  counts nothing, is started by that drain and submitted all the same (`RunTraces.SubmittedWhileClosing`).
- Until its mark a rejected row is counted as unsettled by every other request. The bounds of the policies are
  therefore about the runs that are not rejected (`RunBounds.AdmissionBound`, `RunBounds.PolicyBounds`), and
  `RunTheorems.InvariantExactly` and `RunPolicies.SerialExactly` name the drain into such a row, and the request before
  a drain, among the moves they exclude.
- In `parallel-with-limit` a submitted run can be started by the drain and again by its own coroutine
  (`RunPolicies.ParallelStartsTwice`). One coroutine at a time, and one start for each run, hold exactly for `skip`,
  `queue-one` and a limit of at most one (`RunPolicies.SerialExactly`).
- The missed-run `skip` branch marks whatever run the occurrence has. It is safe if and only if no coroutine carries
  that run and nobody is about to submit it, as on a fresh occurrence (`RunMoves.MissedSkipExactly`,
  `RunTraces.MissedSkipInFlight`).
- An exception after a run is completed, as when the stop phrase is found and the definition is gone, goes to the
  retry loop. If no attempt is left the coroutine drains as usual; if one is left, the invariant is broken
  (`RunMoves.RaisesLateExactly`, `RunTraces.RaisesLateInFlight`).
- A restart reads 1,000 unsettled runs. It is safe if and only if it does not resume a run beside one it has
  overlooked (`RunMoves.RestartKeeps`). That takes a clock that goes back, or a row to be submitted beside one that
  waits: otherwise no restart ever does it, however many rows there are, if rows of one millisecond are read in the
  order of their insertion, which the query leaves open (`RunAges.RestartsNeverBreak`). With a clock
  that goes back by a millisecond and 999 runs of other Automations, two runs of a `queue-one` Automation run at once
  (`RunRestarts.OverlookedInFlight`). All of these together are exactly the moves that break the engine's
  invariant (`RunTheorems.InvariantExactly`).
- No wake-up is lost, in any mode, when requests decide on the count of the moment (`RunWakeups.NoLostWakeup`,
  `RunWakeups.PromptNeverStrands`). What loses it: a session set-up that raises, a restart while the definition is not
  active, and an old count that queues a row behind nobody (`RunWakeups.WakeupUnderOldCounts`). Then queued runs wait
  until a later restart finds the definition active (`RunTheorems.AwakeExactly`, `RunTheorems.RestartWakesExactly`,
  `RunTheorems.StuckUntilRescue`). The parallel limit has to be at least one, as the input model asks
  (openppx/control_plane/input_models.py:302-313); below one nobody gets in, and the rejected row counts until its mark
  (`RunTraces.NobodyGetsIn`).
- News of a monitor is lost exactly if its attempt raises between observing and recording; its retries are silent
  (`Monitor.DeliveredOnce`, `Monitor.RetriesStaySilent`).
- A crash between adding a Cron job and storing its id leaves a second job for good
  (`ScheduleCalls.CrashLeavesSecondJob`): a restart restores the correspondence exactly if there is no such job
  (`ScheduleStartup.ReconcileBijection`). A trigger replaced without a new revision is carried over only if the
  schedule is the same (`ScheduleCalls.SilentReplaceIsStale`). An update whose new trigger is refused has already
  raised the revision (`ScheduleCalls.RefusedTriggerParts`).
- Service calls from several threads overlap between storing a change, replacing the trigger, reading it and writing the
  job. No job is ever left without a definition that refers to it if and only if no client synchronises with a
  definition that it read before another client gave it a job (`ScheduleOverlaps.OrphansExactly`). Two updates of a
  definition without a job both add one, and one of them stays (`ScheduleOverlaps.BothAddJobs`); the older update can
  write its own definition over the job of the newer one (`ScheduleOverlaps.OlderOverwrites`); and two updates that
  replace the trigger in the other order leave a job of the current revision with a schedule the trigger has no longer,
  for good, unless the schedules are the same (`ScheduleOverlaps.TriggersCross`). When a late synchronisation makes
  definition and job agree is `ScheduleClients.LateSyncAgrees`.
- Deleting an Agent while another client enables or creates it can publish an id that names nothing, in either order
  (`AgentClients.EnablementRaces`, `AgentClients.CreationRaces`). Operations that stay apart are safe
  (`AgentClients.ApartIsSafe`), and an overlap is harmless exactly if one of the two is refused
  (`AgentClients.OverlapExactly`).
- The effect of an edit is not bounded by its steps when a step has a `spec` that is no object
  (`Effects.TriangleExactly`).
- The strict rewrite widens under `oneOf`, and where `not` or `if` stands above a reference
  (`SchemaLimits.OneOfWidens`, `SchemaLimits.NotWidens`, `SchemaLimits.IfWidens`, and all three at a concrete schema in
  `SchemaLimits.AnyObjectWidens`). It widens when required names are undeclared, unless the rewritten schema accepts
  nothing at all (`SchemaMeaning.UndeclaredNamesWiden`, `SchemaMeaning.UndeclaredBelowWidens`): what must have one
  undeclared name turns into what has no names (`SchemaLimits.NeedsWidens`). And it leaves a schema that is itself a
  reference accepting nothing (`SchemaMeaning.RootReferenceAcceptsNothing`).
- Joining and splitting shell parts is the identity exactly when no part but the last leaves a quote open
  (`ChainJoin.SplitUndoesJoin`).
- An unseen element that comes first can take a known element's reference (`SnapshotRefs.UnseenTakesRef`). A known
  selector keeps its reference if and only if the counter for new ones has not passed it
  (`SnapshotRefs.KnownKeepsExactly`).

## Model

| member | source | states |
|---|---|---|
| AutomationTables.AutomationStore.CreateDefinition | openppx/automation/store.py:390-473 | a creation adds an active definition of revision 1, with name, description and instructions stripped, and its event, answers a repeated idempotency key with the definition that has it, and is refused for a taken name |
| AutomationTables.AutomationStore.UpdateDefinition | openppx/automation/store.py:515-540 | an edit under the expected revision writes the allowed columns, raises the revision if it writes any, and logs the names; otherwise the exact refusal and no change |
| AutomationTables.AutomationStore.SetStatus | openppx/automation/store.py:542-557 | a transition raises the revision and logs itself; a deleted definition cannot transition |
| AutomationTables.AutomationStore.RunForOccurrence | openppx/automation/store.py:664-671 | finds a run of the occurrence exactly if there is one |
| AutomationTables.AutomationStore.CreateRun | openppx/automation/store.py:611-655 | inserts a queued run for a new occurrence and returns the existing run otherwise |
| AutomationTables.AutomationStore.UpdateRun | openppx/automation/store.py:741-778 | changes the status of an unsettled run, with an event, leaves a settled one alone, and reports an unknown one |
| AutomationTables.AutomationStore.ActiveRunCount | openppx/automation/store.py:691-697 | the number of queued and running runs of one Automation |
| AutomationTables.AutomationStore.RunningRunCount | openppx/automation/store.py:699-706 | the number of running runs of one Automation |
| AutomationTables.AutomationStore.QueuedRunsOf | openppx/automation/store.py:708-716 | the oldest queued runs, in order of age, as many as asked for between 1 and 100 |
| AutomationTables.AutomationStore.ListIncompleteRuns | openppx/automation/store.py:681-689 | the oldest unsettled runs, as many as asked for between 1 and 10,000 |
| AutomationRows.Creation | openppx/automation/store.py:424-473 | row by row: the new definition is active, of revision 1, without a job, and has every column as given, three of them stripped |
| Text.Spaces | openppx/automation/store.py:424-426 | the code points that stripping removes |
| AutomationRows.UpdateRefused | openppx/automation/store.py:515-537 | an update is refused for a missing, then a deleted definition, a stale revision, a taken name, in this order, and changes nothing then |
| AutomationRows.Update | openppx/automation/store.py:515-540 | otherwise every one of the fourteen columns it names has the new value, and so have policy, confirmation and job reference where given; every other column, key and status stay, and the revision rises by one exactly if something is written |
| AutomationRows.UpdateLogged | openppx/automation/store.py:539-540 | and the event names exactly the columns written |
| AutomationRows.Transition | openppx/automation/store.py:542-557 | a transition is refused for a missing definition, a stale revision, a deleted one, in this order; otherwise the status is the new one, the revision one more, and every column stays |
| AutomationRows.JobReference | openppx/automation/store.py:601-609 | storing a job reference changes that reference alone, without revision or event |
| AutomationRows.RunCreation | openppx/automation/store.py:611-655 | a new run is queued, with its Automation, occurrence, revision and time, and no other row changes |
| AutomationRows.RunUpdate | openppx/automation/store.py:741-778 | a queued or running run gets the new status and nothing else; a settled one stays |
| AutomationRows.Queries | openppx/automation/store.py:681-706 | active are the queued and running runs of the Automation, incomplete those of any |
| AutomationRows.OldestFirst | openppx/automation/store.py:681-716 | a query for the oldest gives as many as it may, in order of creation, and leaves out none that is older than one it gives |
| AutomationReplay.ApplyFaithful | openppx/automation/store.py:515-557 | every store call keeps the log telling the status of each run and the status and revision of each definition |
| AutomationReplay.ReplayReconstructs | openppx/automation/store.py:880-893 | over any sequence of store calls, folding the event log gives every run's status and every definition's status and revision, and each run has at most one settling event |
| AutomationReplay.HistoryIsFinal | openppx/automation/store.py:741-778 | over any further calls settled runs and deleted definitions keep their status, and the log only grows |
| AutomationRuns.AutomationService.PrepareRun | openppx/automation/service.py:529-611 | the run of the occurrence, and whether this caller must submit it, for every mode and count, with each refusal: not active, Agent unreadable |
| AutomationRuns.AutomationService.RunNow | openppx/automation/service.py:297-317 | preparation and submission are the admission slice of the engine |
| AutomationRuns.AutomationService.InsertRun | openppx/automation/service.py:587-600 | the insertion under a verdict reached earlier, which finds the row or makes it and leaves the caller with its last step |
| AutomationRuns.AutomationService.MarkSkipped | openppx/automation/service.py:603-607 | that last step for a rejected row: the mark, which a settled run ignores |
| AutomationRuns.AutomationService.SubmitRun | openppx/automation/service.py:315-317 | and for an admitted one: exactly one more coroutine |
| AutomationRuns.AutomationService.SkipMissed | openppx/automation/service.py:372-390 | the missed-run branch marks the run of the occurrence as skipped, whatever it was |
| AutomationRuns.AutomationService.ExecuteRun | openppx/automation/service.py:411-427 | the start of a run is the start slice: running, or blocked and drained |
| AutomationRuns.AutomationService.DrainQueuedRun | openppx/automation/service.py:781-787 | the drain starts the oldest other queued run exactly if nothing runs |
| AutomationRuns.AutomationService.StopCondition | openppx/automation/service.py:815-835 | the pause of an active definition, and when it raises |
| AutomationRuns.AutomationService.SettleRun | openppx/automation/service.py:489-511 | the end of an attempt settles the run and applies the stop phrase, and the coroutine has still to drain, unless something raises after completion and an attempt is left: then it goes on to it |
| AutomationRuns.AutomationService.FinishRun | openppx/automation/service.py:489-527 | without interference it then drains, through any chain of blocked runs |
| AutomationRuns.AutomationService.ReconcileRuntime | openppx/automation/service.py:624-646 | a restart settles the interrupted runs it reads as blocked and resumes the oldest queued ones of the active definitions it reads, as many as the policy allows |
| AutomationRuns.PrepareAnswers | openppx/automation/service.py:529-600 | a request for an Automation that is not active, whose Agent cannot be read or that is missing is refused for the first of these, but a known occurrence is answered before the Agent is read |
| AutomationRuns.StopConditionRaises | openppx/automation/service.py:815-835 | the stop condition raises if interrupted, for a missing or deleted definition, and if the pause of an active one cannot be carried over |
| RunOutcomes.AdmissionRules | openppx/automation/service.py:546-600 | which request is submitted, enqueued or rejected, mode by mode: by nothing unsettled, by fewer than two, by fewer than the limit |
| RunOutcomes.RequestDecides | openppx/automation/service.py:529-611 | a request without interference adds one run of its occurrence exactly for an active snapshot, a stored definition and a new occurrence, submitted, queued or skipped by the number of queued and running runs |
| RunOutcomes.InsertDecides | openppx/automation/service.py:587-600 | an insertion under a counted number adds one queued row of its occurrence, and leaves its caller to submit it, to mark it, or with nothing to do |
| RunOutcomes.ConcludeDecides | openppx/automation/service.py:603-611 | a submission makes one coroutine, a mark skips the run unless it is settled |
| RunOutcomes.MissedDecides | openppx/automation/service.py:372-390 | the missed-run branch skips the run the occurrence has, unless settled, or a new one, and submits nothing |
| RunOutcomes.StartDecides | openppx/automation/service.py:411-427 | a queued run of a living definition becomes running if the definition is confirmed and active and the environment available, and blocked otherwise; no other run changes |
| RunOutcomes.DrainDecides | openppx/automation/service.py:781-787 | a drain does so with the oldest other queued run of the Automation if none is running |
| RunOutcomes.DrainLeaves | openppx/automation/service.py:781-787 | and changes no run otherwise |
| RunOutcomes.SettleDecides | openppx/automation/service.py:489-511 | a turn that succeeds completes its run and one that does not fails it; the stop phrase pauses an active definition |
| RunOutcomes.RaiseDecides | openppx/automation/service.py:489-510 | an exception after completion leaves the run completed and its coroutine going |
| RunOutcomes.RestartDecides | openppx/automation/service.py:624-646 | a restart blocks exactly the running runs it reads, and makes one coroutine for each run it resumes and for no other |
| RunOutcomes.ReadExactly | openppx/automation/store.py:681-689 | it reads an unsettled run exactly if fewer than a thousand come before it |
| RunOutcomes.ListsExactly | openppx/automation/store.py:498-513 | it reads no deleted definition, and every other one as long as there are at most ten thousand |
| RunOutcomes.ResumesExactly | openppx/automation/service.py:638-646 | it resumes a queued run exactly if the definition is active and fewer runs of it than may be in at once are read before it |
| RunOutcomes.StatusExplained | openppx/automation/service.py:411-511 | whatever the move, a run becomes running only from queued, with its definition confirmed and active and its environment available, and is blocked, completed, failed or skipped only by the moves that say so |
| RunOutcomes.StartedReady | openppx/automation/service.py:411-427 | over every trace, a run that is running was started at a move at which its definition was confirmed and active and its environment available |
| RunSlices.DrainIsTrace | openppx/automation/service.py:781-787 | a drain to its end, through any chain of blocked runs, is one of the traces the theorems are about |
| RunMoves.InsertExactly | openppx/automation/service.py:546-600 | an insertion under any count, however old, breaks the serial invariant exactly if its caller will submit it where there is a coroutine or a running run, and loses the wake-up exactly if it queues behind nobody |
| RunMoves.ConcludeExactly | openppx/automation/service.py:601-611 | a submission keeps everything, and the mark of a rejected row breaks the invariant exactly if a coroutine carries the row by then |
| RunMoves.StartKeeps | openppx/automation/service.py:411-427 | a start keeps the serial invariant, the wake-up and a wait without coroutine, whether it runs or is blocked and goes on to drain |
| RunMoves.SettleKeeps | openppx/automation/service.py:489-511 | so does the end of a turn, completed, failed or stopping the definition, with anything between it and its drain |
| RunMoves.DrainKeeps | openppx/automation/service.py:781-787 | so does a drain: it takes up the oldest other queued run, or there is none to wait |
| RunMoves.RaisesLateExactly | openppx/automation/service.py:489-510 | an exception after completion with an attempt left always breaks it, for its own Automation alone |
| RunMoves.SetupFailsExactly | openppx/automation/service.py:432-444 | a session set-up that raises keeps the serial invariant, and loses the wake-up exactly if there are runs here to stay |
| RunMoves.MissedSkipExactly | openppx/automation/service.py:372-390 | the missed-run branch breaks it exactly if a coroutine carries the run of the occurrence or a caller is about to submit it |
| RunMoves.AdminKeeps | openppx/automation/store.py:515-557 | edits and transitions keep it |
| RunMoves.RestartKeeps | openppx/automation/service.py:613-646 | a crash and restart break it exactly if they resume a run beside an overlooked one, and otherwise wake the Automation exactly if nobody is left waiting |
| RunMoves.AllRead | openppx/automation/service.py:624-646 | with no more rows than a restart reads, nothing is overlooked, and nobody is left waiting exactly if the definition is active or has no queued run |
| RunTheorems.StepExactly | openppx/automation/service.py:372-646 | every move of the event loop and of any caller keeps the serial invariant, the wake-up and a wait without coroutine, except exactly the moves named |
| RunTheorems.InvariantExactly | openppx/automation/service.py:372-646 | over every trace under serial policies, the invariant holds throughout if and only if no move of it breaks it |
| RunTheorems.AdmissionSafe | openppx/automation/service.py:544-611 | over every unbroken trace under serial policies, which may change: at most one running, at most one coroutine, on an unsettled run until it settles it, no run started twice, restarts included |
| RunWakeups.NoLostWakeup | openppx/automation/service.py:544-611 | in every mode, under policies that change, and over every trace in which requests decide on the count of the moment, no set-up of the Automation raises and every restart resumes it: a queued or running run of a living definition implies a coroutine of its Automation or a caller about to submit one |
| RunWakeups.WakeupUnderOldCounts | openppx/automation/service.py:781-787 | with counts however old, the same for the runs that are not rejected, as long as no row of a living definition is queued behind nobody |
| RunWakeups.PromptNeverStrands | openppx/automation/service.py:546-554 | a row queued under the count of the moment always has somebody before it: it loses the wake-up in no mode, nor under the serial invariant |
| RunWakeups.PromptIsAwake | openppx/automation/service.py:544-611 | under serial policies, an unbroken trace of such requests, without failed set-ups and with restarts that resume, is awake throughout |
| RunTheorems.AwakeExactly | openppx/automation/service.py:613-646 | over every unbroken trace the Automation is awake throughout if and only if no move of it loses the wake-up |
| RunTheorems.RestartWakesExactly | openppx/automation/service.py:639-646 | after a restart an Automation is awake if and only if it has no queued run or is active |
| RunTheorems.StuckUntilRescue | openppx/automation/service.py:639-646 | once unsettled runs have no coroutine, no request, resumption or edit gives them one |
| RunTheorems.StartWorks | openppx/automation/service.py:411-427 | every start lowers the work left to an Automation |
| RunTheorems.SettleWorks | openppx/automation/service.py:489-511 | so does every end of a turn |
| RunTheorems.DrainWorks | openppx/automation/service.py:781-787 | and every drain |
| RunBounds.AdmissionBound | openppx/automation/service.py:544-607 | in every mode and for every bound, the unsettled runs that are not rejected stay within it throughout a trace if and only if no insertion finds them at the bound and no crash leaves too many rejected rows unmarked |
| RunBounds.PolicyBounds | openppx/automation/service.py:544-553 | under policies within a bound they do, if requests decide on the count of the moment and no crash comes between a rejected row and its mark |
| RunDrain.RunAttempts | openppx/automation/service.py:445-510 | attempts are made in order until one succeeds or none is left |
| RunDrain.DrainIsByAge | openppx/automation/service.py:781-787 | the mutual recursion of start and drain attempts the given run and then every other queued run once, oldest first, whatever becomes of each |
| RunDrain.DrainEmpties | openppx/automation/service.py:781-787 | without arrivals it settles every queued run of the Automation and touches no other |
| RunDrain.AttemptEnds | openppx/automation/service.py:411-511 | an attempted run ends completed or failed by its attempts if its definition is confirmed and active and its environment available, and blocked otherwise; a completed output with the stop phrase pauses the definition |
| RunDrain.DrainEnds | openppx/automation/service.py:781-787 | so does every queued run of a drain without arrivals, in order of age, where a definition that an earlier run has paused blocks the later ones |
| RunTraces.StaleCountExactly | openppx/automation/service.py:546-600 | which old counts are harmless: exactly those that reject, submit where there is no coroutine and no running run, or queue behind somebody with room |
| RunTraces.BothCountNothing | openppx/automation/service.py:546-587 | two threads that both counted nothing put two coroutines in flight, under every policy that admits a run |
| RunTraces.LateBehindNobody | openppx/automation/service.py:546-587 | a run that finishes between the count and the insertion leaves the new run waiting for nobody |
| RunTraces.MissedSkipInFlight | openppx/automation/service.py:372-390 | the missed-run branch on a submitted run lets a second coroutine in |
| RunTraces.RaisesLateInFlight | openppx/automation/service.py:489-510 | so does an exception after completion with an attempt left |
| RunTraces.RejectedInFlight | openppx/automation/service.py:587-607 | a rejected row that is drained before its mark is skipped under its coroutine, and a second one is let in |
| RunTraces.SubmittedWhileClosing | openppx/automation/service.py:489-527 | a request between the end of a turn and its drain is started by the drain and submitted as well |
| RunTraces.NobodyGetsIn | openppx/automation/service.py:546-552 | under a parallel limit below one, a rejected row of an empty Automation counts as unsettled and nobody comes for it |
| RunAges.NobodyOverlooked | openppx/automation/service.py:624-646 | where every running run is older than every queued one, a restart that resumes a run has read every running one |
| RunAges.StepInOrder | openppx/automation/service.py:411-646 | while the clock does not go back, no move lets a run that waits be older than one that runs or is about to |
| RunAges.RestartsNeverBreak | openppx/automation/service.py:613-646 | so over any trace no restart breaks the invariant, however many rows there are |
| RunRestarts.OverlookedInFlight | openppx/automation/service.py:624-646 | when the clock goes back and 999 or more runs of another Automation come first, a restart leads to two runs at once under `queue-one` |
| RunPolicies.ParallelStartsTwice | openppx/automation/service.py:781-787 | under every parallel limit of two or more, a trace in which the drain starts a submitted run and its coroutine starts it again |
| RunPolicies.SerialExactly | openppx/automation/service.py:544-611 | over all prompt traces under one policy, with few rows or a clock that never goes back, at most one coroutine exists and no run starts twice, each if and only if the policy is `skip`, `queue-one` or a limit of at most one |
| Occurrences.NextConsistent | openppx/automation/service.py:541-611 | each store call of each caller keeps occurrences unique and runs handed out once |
| Occurrences.OccurrenceOnce | openppx/automation/store.py:631-655 | over every interleaving at store-call granularity: one run per occurrence, every caller gets it, at most one is told to submit it |
| Occurrences.AloneAnswers | openppx/automation/service.py:529-600 | a caller with nobody between its store calls raises for an Automation that is not active or missing, and gets the run of a known occurrence without having to submit it |
| Occurrences.AloneInserts | openppx/automation/service.py:587-611 | for a new occurrence it adds one run, by the number of queued and running runs: to be submitted, waiting, or skipped |
| Monitor.MonitorState.ApplyMonitorPolicy | openppx/automation/service.py:789-813 | an output counts as changed if its trimmed digest differs from the last observation or the monitor is off, and becomes the observation |
| Monitor.MonitorState.RecordDelivery | openppx/automation/service.py:837-867 | one delivery per key, none for an unchanged observation |
| Monitor.MonitorState.Settle | openppx/automation/service.py:469-481 | an attempt with an output observes it, and delivers it unless it raises in between |
| Monitor.AttemptRules | openppx/automation/service.py:789-867 | rule by rule: what is observed, with a summary of at most 16,384 characters, when it differs from before, and when a delivery of at most 2,000 characters is recorded |
| Monitor.NoticeRules | openppx/automation/service.py:789-813 | a notice takes the place of the output exactly if an enabled monitor notifies on change only and sees none |
| Monitor.DeliversExactlyNews | openppx/automation/service.py:789-867 | over any sequence of attempts, retried or interrupted, the deliveries are exactly the recorded outputs that differ, trimmed, from the last one observed, once for each run |
| Monitor.DeliveredOnce | openppx/automation/service.py:789-867 | with one attempt for each run, an output is delivered if and only if it is news and its attempt did not raise |
| Monitor.RetriesStaySilent | openppx/automation/service.py:500-510 | after an attempt that raises once it has observed, no retry with the same output delivers it |
| ScheduleService.CronTable.UpdateJob | openppx/runtime/cron_service.py:877-914 | a rewritten job has the new schedule, payload and revision, a due time if it is enabled, and its old history; a missing job is reported |
| ScheduleService.CronTable.EnableJob | openppx/runtime/cron_service.py:916-930 | enabling sets the due time, disabling clears it, a missing job is reported |
| ScheduleService.Scheduler.SyncSchedule | openppx/automation/service.py:651-720 | the synchronisation, branch by branch and with its restart after a missing job, is one function of the tables |
| ScheduleService.Scheduler.ReconcileSchedules | openppx/automation/service.py:615-622 | start-up synchronises each definition and drops the jobs of the others |
| Schedules.SyncLeavesOthers | openppx/automation/service.py:651-720 | a synchronisation leaves every other Automation's definition, trigger and job alone |
| Schedules.SyncAgrees | openppx/automation/service.py:651-720 | afterwards there is one job exactly when one is wanted, enabled exactly when active, with the revision, schedule and payload of the definition: if and only if no orphan was there |
| Schedules.SyncIdempotent | openppx/automation/service.py:651-658 | a repeated synchronisation changes nothing, whenever it happens |
| Schedules.SyncDueTime | openppx/automation/service.py:651-720 | a job with the revision and enablement of its definition keeps its due time, any other gets one from the trigger's schedule or none, and the trigger shows it |
| ScheduleOutcomes.SyncScheduled | openppx/automation/service.py:675-720 | a scheduled definition ends with one job that has its revision, schedule, enablement, name, instructions and Agent: its own job with the history it had, or a new one; trigger and job show the same due time |
| ScheduleOutcomes.SyncUnscheduled | openppx/automation/service.py:651-674 | any other definition ends without a job and without a reference to one |
| ScheduleOutcomes.DroppedJobs | openppx/automation/service.py:616-622 | start-up keeps a derived job exactly if its definition is not deleted, and every other job |
| ScheduleStartup.ReconcileBijection | openppx/automation/service.py:613-622 | after start-up derived jobs and definitions that want one correspond one to one if and only if no living definition had an orphan |
| ScheduleCalls.CallKeepsQuiet | openppx/automation/service.py:141-231 | creation, update, transition, firing, foreign jobs and restarts, each as a whole, never make an orphan |
| ScheduleCalls.CallAgrees | openppx/automation/service.py:180-231 | a service call that comes to its end leaves its definition and job in agreement |
| ScheduleCalls.RefusedTriggerParts | openppx/automation/store.py:559-579 | an update whose trigger is refused, for naming two kinds, an unsupported schedule, an event without key or an empty one, parts them, exactly for its own definition |
| ScheduleOutcomes.CreatedTrigger | openppx/automation/store.py:835-872 | what a creation makes of a schedule and a local event: the schedule first, the event only without one |
| ScheduleOutcomes.ReplacedTrigger | openppx/automation/store.py:559-579 | what a replacement makes of them: never both, no trigger for an empty schedule, a refusal for an empty event |
| ScheduleOutcomes.StoredTrigger | openppx/automation/store.py:559-579 | a stored trigger takes the place of the old one, without due time and last run |
| ScheduleOutcomes.FiredDoes | openppx/runtime/cron_service.py:680-706 | a fired job has its start as last run and is due again, unless it was for one time only: then it is gone |
| ScheduleCalls.AgreementLasts | openppx/automation/service.py:180-231 | an agreement survives a call if and only if the call is not one of the three kinds that part |
| ScheduleCalls.HistoryQuiet | openppx/automation/service.py:141-231 | no history of calls that do not overlap leaves an orphan |
| ScheduleCalls.RestartRestores | openppx/automation/service.py:613-622 | so every restart restores the correspondence, whatever came before |
| ScheduleCalls.AgreesUnlessParted | openppx/automation/service.py:180-231 | between restarts agreement is lost only at a parting call |
| ScheduleCalls.CrashLeavesSecondJob | openppx/automation/service.py:703-709 | a crash between adding a job and storing its id leaves a second job that no restart removes |
| ScheduleCalls.SilentReplaceIsStale | openppx/automation/store.py:577-579 | a trigger replaced without a new revision is carried over only if the schedule is the same |
| ScheduleClients.FreshIsSync | openppx/automation/service.py:651-720 | a synchronisation with the current definition is that of the whole call |
| ScheduleClients.LateSyncExactly | openppx/automation/service.py:651-720 | one with an old definition and an old trigger leaves a job without a definition that refers to it exactly if it takes the reference away from a job it does not know of |
| ScheduleClients.LateSyncAgrees | openppx/automation/service.py:651-720 | otherwise definition and job agree afterwards exactly if the revision and the schedule that were read are current, or the job had that revision and has the schedule of the trigger, or the job was gone and both were read again, or, where a job is to go, none is wanted |
| ScheduleOverlaps.AloneIsWhole | openppx/automation/service.py:180-231 | a client with nobody between its steps does what the whole call does |
| ScheduleOverlaps.MoveExactly | openppx/automation/service.py:180-231 | storing a change, replacing the trigger, reading it, synchronising late and whole calls keep jobs and definitions together, except exactly a synchronisation that strays |
| ScheduleOverlaps.OrphansExactly | openppx/automation/service.py:141-231 | over every interleaving of overlapping calls there is never an orphan if and only if no client strays |
| ScheduleOverlaps.BothAddJobs | openppx/automation/service.py:703-709 | two overlapping updates of a definition without a job both add one, and the first stays as an orphan |
| ScheduleOverlaps.OlderOverwrites | openppx/automation/service.py:692-699 | the update stored first and synchronised last leaves the job with its own revision, behind the definition |
| ScheduleOverlaps.TriggersCross | openppx/automation/service.py:206-220 | two updates whose trigger replacements come in the other order leave the job with the current revision and the schedule of the newer one, which the trigger has if and only if both asked for the same; no later synchronisation changes it |
| StructuralDiff.DiffMembers | openppx/config/service.py:391-408 | the recursive difference reports exactly the paths that descending along the path finds |
| StructuralDiff.LeafMembers | openppx/config/service.py:440-447 | an added or removed value is reported at exactly its leaves, empty objects included |
| StructuralDiff.DiffSound | openppx/config/service.py:391-408 | at every reported path the documents differ in the reported way |
| StructuralDiff.DiffComplete | openppx/config/service.py:391-408 | at a path incomparable with all reported ones they agree |
| StructuralDiff.DiffEmpty | openppx/config/service.py:391-408 | the difference is empty exactly for equal documents |
| StructuralDiff.DiffIncomparable | openppx/config/service.py:391-408 | no path is reported twice and none inside another |
| DiffOrder.ReportedInOrder | openppx/config/service.py:391-447 | of two reported changes the first has, where their paths part, a removed key before an added one before one that both documents have, or the smaller key |
| Effects.EffectForChanges | openppx/config/service.py:457-463 | the loop computes the strongest effect |
| Effects.StrongestIsMaximum | openppx/config/service.py:450-463 | which reaches a rank exactly if some change does |
| Effects.EffectMeaning | openppx/config/service.py:466-487 | a restart or new run is asked for exactly when a field of that rank differs, unless one `spec` is an object and the other is not |
| Effects.NodeEffect | openppx/config/service.py:466-476 | an edit of a Node asks for a restart exactly if `clientApi` differs, and otherwise for a new run exactly if `enabledAgents`, `permissions` or `runtime` does, unless one `spec` is an object and the other is not |
| Effects.AgentEffect | openppx/config/service.py:477-487 | an edit of an Agent never asks for a restart, and for a new run exactly if one of its six fields differs |
| Effects.EffectSymmetric | openppx/config/service.py:457-487 | an edit and its undoing have the same effect |
| Effects.EffectTriangle | openppx/config/service.py:450-487 | going through a document whose `spec` is an object or absent never hides an effect |
| Effects.TriangleExactly | openppx/config/service.py:450-487 | for every edit around a document this holds if and only if its `spec` is an object or absent |
| Effects.SplitEdit | openppx/config/service.py:450-487 | however an edit is split, one step asks for at least what the whole asks for |
| ConfigStore.AuthorityCheck | openppx/config/service.py:420-437 | the authority check passes exactly when none of the five fields differs |
| ConfigFiles.ConfigService.WriteAgent | openppx/config/repository.py:161-186 | a named, locked compare-and-swap write, with each refusal |
| ConfigFiles.ConfigService.WriteNode | openppx/config/repository.py:143-159 | the same for the Node |
| ConfigFiles.ConfigService.ArchiveAgent | openppx/config/repository.py:188-227 | moves the expected revision out of the store, under its name and revision |
| ConfigFiles.ConfigService.PreviewAgent | openppx/config/service.py:144-168 | identity, authority and revision are checked in this order; then changes and effect |
| ConfigFiles.ConfigService.ApplyAgent | openppx/config/service.py:205-215 | preview, then write: all or nothing |
| ConfigFiles.ConfigService.ApplyNode | openppx/config/service.py:199-203 | the same for the Node |
| ConfigOutcomes.ReadAnswers | openppx/config/repository.py:96-109 | reading gives the stored Agent if it calls itself by its id, and tells an absent one from a misnamed one |
| ConfigOutcomes.WriteAnswers | openppx/config/repository.py:161-186 | a write is refused for the name it gives, a misnamed stored Agent, the revision, in this order; otherwise it stores this one document |
| ConfigOutcomes.NodeWriteAnswers | openppx/config/repository.py:143-159 | the Node is written exactly if it has the expected revision |
| ConfigOutcomes.ArchiveAnswers | openppx/config/repository.py:188-227 | an archived Agent moves as it is, and no other Agent or copy changes |
| ConfigOutcomes.PreviewAnswers | openppx/config/service.py:144-168 | a preview is refused for the name, a misnamed stored Agent, one of the five authority fields, the revision, in this order; otherwise it reports the difference from what is stored |
| ConfigOutcomes.NodePreviewAnswers | openppx/config/service.py:132-142 | the preview of a Node is refused for its revision only |
| ConfigOutcomes.AuthorityNames | openppx/config/service.py:420-437 | the refusal names exactly the authority fields that differ, in the order of the code |
| ConfigOutcomes.ApplyAnswers | openppx/config/service.py:199-215 | what is applied is what the preview allows, and one document is stored |
| ConfigClients.WriteMeetsItsBase | openppx/config/atomic.py:35-45 | a write that passes replaces the very document its client compared with, though the preview read outside the lock |
| ConfigClients.AuthorityFixed | openppx/config/service.py:411-437 | over any interleaving of previews, writes and archives by any clients, the five authority fields of an Agent never change while it stays stored |
| ConfigClients.WriteReportsItself | openppx/config/service.py:205-215 | the reported changes and effect are those of the write that happened |
| ConfigClients.UpdateEffect | openppx/config/service.py:477-487 | a successful update never asks for a restart, and for a new run exactly when the model policy changes |
| ConfigClients.ArchiveGrows | openppx/config/repository.py:188-227 | nothing archived is lost or replaced, and each copy can be checked against its address |
| ConfigClients.RestoredBaseStillWrites | openppx/config/atomic.py:35-45 | a refused write passes again once the base content is restored |
| ConfigClients.AloneIsWhole | openppx/config/service.py:205-215 | a client with nobody between its preview and its write does what the whole call does |
| AgentService.AgentLifecycleService.Create | openppx/agents/service.py:70-125 | the ordered checks, staging and publication, with what each failure leaves behind |
| AgentService.AgentLifecycleService.StageAgent | openppx/agents/service.py:286-305 | an equal resource is taken over, another is a conflict, none is created |
| AgentService.AgentLifecycleService.Update | openppx/agents/service.py:142-190 | display name, instruction and default profile change under the expected revision; authority does not |
| AgentService.AgentLifecycleService.SetEnabled | openppx/agents/service.py:192-214 | publishes or withdraws one id, or does nothing |
| AgentService.AgentLifecycleService.Delete | openppx/agents/service.py:216-231 | archives an Agent that is not enabled |
| AgentRuns.AlwaysPublished | openppx/agents/service.py:70-231 | over any operations and crashes enabled ids stay unique and each names a stored Agent |
| AgentRuns.OnlyItsOwn | openppx/agents/service.py:70-231 | an operation leaves other Agents and their enablement alone |
| AgentRuns.OnlyDeleteRemoves | openppx/agents/service.py:216-231 | only a deletion removes an Agent, never an enabled one, and a copy is archived |
| AgentRuns.RetryReachesTheSame | openppx/agents/service.py:286-305 | a creation interrupted after staging and tried again ends where the uninterrupted one ends, whatever happened to other Agents in between |
| AgentRuns.EditChangesOnly | openppx/agents/service.py:168-178 | an update changes display name, instruction and default profile and no other field |
| AgentRuns.UpdateSucceeds | openppx/agents/service.py:142-190 | so with the current revision it is never refused for its authority |
| AgentRuns.CreateSucceeds | openppx/agents/service.py:70-125 | a creation of a free id succeeds and publishes it |
| AgentOutcomes.CreatedAgent | openppx/agents/service.py:70-125 | after a creation the stored Agent has owner, privilege level, display name, instruction, workspace and default profile as asked for and controls and permissions of the host, and its id is enabled last; everything else stays |
| AgentOutcomes.CreateRefused | openppx/agents/service.py:70-105 | the refusals of the checks, in their order |
| AgentOutcomes.CreationLeaves | openppx/agents/service.py:105-125 | a creation that fails later leaves at most the new Agent, stored and not enabled |
| AgentOutcomes.StoredIsCompared | openppx/agents/service.py:286-305 | a stored Agent that is not enabled is taken over exactly if it says the same |
| AgentOutcomes.UpdateDoes | openppx/agents/service.py:142-190 | an update writes display name, instruction and default profile as asked, or changes nothing; it answers with an error if there is no Node to report |
| AgentOutcomes.SetEnabledDoes | openppx/agents/service.py:192-214 | an enabled id is put last and a disabled one taken out, the others stay in their order, and what was asked for already changes nothing |
| AgentOutcomes.DeleteDoes | openppx/agents/service.py:216-231 | a deletion is refused for an Agent that is missing, damaged, enabled or of another revision, and archives it otherwise |
| AgentClients.ArchiveExactly | openppx/agents/service.py:216-225 | an archive keeps every enabled id naming a stored Agent exactly if its own is not enabled at that moment |
| AgentClients.PublishExactly | openppx/agents/service.py:107-120 | a publication does exactly if the id it enables is still stored |
| AgentClients.PublishedExactly | openppx/agents/service.py:70-231 | over every interleaving of the steps of any clients, enabled ids name stored Agents throughout if and only if no step archives an enabled one or publishes one that is gone |
| AgentClients.ApartIsSafe | openppx/agents/service.py:70-231 | they do over every interleaving in which no deletion past its check overlaps an enablement or creation of the same id |
| AgentClients.OverlapExactly | openppx/agents/service.py:192-225 | an overlap is harmless, in either order, exactly if the Node or the Agent has changed since it was read |
| AgentClients.EnablementRaces | openppx/agents/service.py:192-225 | a schedule in which a deletion and an enablement, in either order, publish an id that names nothing |
| AgentClients.CreationRaces | openppx/agents/service.py:107-120 | the same for a deletion and a creation |
| AgentClients.CreationAlone | openppx/agents/service.py:70-125 | a creation with nobody between its steps does what the whole operation does |
| AgentClients.EnablementAlone | openppx/agents/service.py:192-214 | so does an enablement or a disablement |
| AgentClients.DeletionAlone | openppx/agents/service.py:216-231 | and a deletion |
| AgentRuns.PublicationsKeepOthers | openppx/agents/service.py:192-214 | a publication that succeeds changes the enablement of its own id only, however many overlap |
| ChainSplit.ScanChain | openppx/core/exec_policy.py:36-101 | the one-pass loop over quote and escape flags finds exactly the pieces of the recursive lexer |
| ChainSplit.PushPart | openppx/core/exec_policy.py:28-35 | a piece is kept trimmed, a blank one makes the chain invalid |
| ChainSplit.SplitCommandChain | openppx/core/exec_policy.py:18-111 | nothing without an operator or with a blank piece, otherwise the trimmed pieces |
| ChainLexer.ChunksAndOperators | openppx/core/exec_policy.py:79-101 | pieces and operators, in turn, are the command |
| ChainLexer.OperatorsAre | openppx/core/exec_policy.py:79-98 | one more piece than operators, and only the three operators |
| ChainLexer.OutsideBeforeOp | openppx/core/exec_policy.py:45-77 | before an operator every quoted region is closed |
| ChainModes.ChunksArePieces | openppx/core/exec_policy.py:36-101 | the pieces of the lexer are the text between the cuts: the positions where the flags over the characters before are plain, one of the three operators stands there, and no earlier cut overlaps |
| ChainModes.SplitsAtCuts | openppx/core/exec_policy.py:18-111 | a command is split at exactly these cuts: into the trimmed pieces, or not at all without a cut or with a blank piece |
| ChainJoin.PartsAreWhole | openppx/core/exec_policy.py:100-111 | every part is trimmed, not blank and not itself a chain |
| ChainJoin.PartsCount | openppx/core/exec_policy.py:79-111 | a chain has one part more than operators, and at least two |
| ChainJoin.SplitUndoesJoin | openppx/core/exec_policy.py:18-111 | splitting two or more trimmed parts without a plain operator, joined by any choice of the three operators, returns them if and only if no part but the last leaves a quote open |
| ChainJoin.NormalForm | openppx/core/exec_policy.py:18-111 | joining what was split, by any of the operators, splits the same way |
| ChainSegments.CommandSegments | openppx/core/exec_policy.py:114-128 | at least one segment: the words of the parts that have some, or the command as a whole |
| ChainSegments.SegmentsInOrder | openppx/core/exec_policy.py:114-128 | segments come in the order of their parts, and a part gives its words or nothing |
| StrictTools.EnforceStrict | openppx/core/deepseek_litellm.py:11-54 | deleting, setting and descending key by key comes to the rewrite |
| StrictTools.MakeStrictTools | openppx/core/deepseek_litellm.py:57-75 | function tools are marked and rewritten in a new list, and the caller's list is untouched |
| StrictTools.StrictToolIdempotent | openppx/core/deepseek_litellm.py:57-75 | marking twice is marking once |
| SchemaOutcomes.ToolSays | openppx/core/deepseek_litellm.py:57-75 | a function tool gets `strict` and rewritten parameters and keeps everything else; any other tool stays |
| SchemaOutcomes.SmallCases | openppx/core/deepseek_litellm.py:11-20 | a reference keeps nothing but itself, and what is not an object stays |
| SchemaOutcomes.KeysAfter | openppx/core/deepseek_litellm.py:16-26 | closing adds `properties`, `additionalProperties` and `required` and no other key |
| SchemaOutcomes.ClosingSays | openppx/core/deepseek_litellm.py:22-26 | no further properties are allowed, and the names of all properties are required, each once and in ascending order |
| Text.LeqIs | openppx/core/deepseek_litellm.py:26 | keys are in code-point order: one is a beginning of the other, or has the smaller character where they first differ |
| SchemaOutcomes.FieldsAfter | openppx/core/deepseek_litellm.py:28-54 | schemas are rewritten by name in `$defs`, `definitions` and `properties`, in lists in `anyOf`, `oneOf` and `allOf`, both ways in `items`; every other value stays |
| StrictSchema.RewriteIsStrict | openppx/core/deepseek_litellm.py:11-54 | every reachable object schema ends closed with its sorted property names required, every reference bare |
| StrictSchema.StrictIsFixed | openppx/core/deepseek_litellm.py:11-54 | the strict schemas are exactly those the rewrite leaves alone |
| StrictSchema.RewriteIdempotent | openppx/core/deepseek_litellm.py:11-54 | a second pass changes nothing |
| SchemaMeaning.StrictOnlyNarrows | openppx/core/deepseek_litellm.py:11-54 | every value the rewritten schema accepts was accepted before, for every number of references followed, with `oneOf` among strict schemas without references only, without references below `not` or `if`, and with required names declared |
| SchemaForms.StandsPoint | openppx/core/deepseek_litellm.py:16-54 | along any pointer below a clean schema, the rewritten form leads to a form of the schema that was there, to one without references left alone, or to one that accepts nothing |
| SchemaForms.CleanDocument | openppx/core/deepseek_litellm.py:11-54 | so does every reference of a clean document |
| SchemaPointers.ResolveNamed | openppx/core/deepseek_litellm.py:28-33 | a reference to a definition or a property leads to what has that name |
| SchemaMeaning.RootIsIdle | openppx/core/deepseek_litellm.py:16-20 | a schema without references means the same in the rewritten document |
| SchemaMeaning.StrictMeansExactNames | openppx/core/deepseek_litellm.py:22-26 | a rewritten object schema accepts only objects with every declared name, and no others but those a pattern admits |
| SchemaMeaning.ClosedMeansExactNames | openppx/core/deepseek_litellm.py:22-26 | without patterns, exactly the declared names |
| SchemaMeaning.UndeclaredNeverNarrows | openppx/core/deepseek_litellm.py:22-26 | whatever else it contains, a schema that requires an undeclared name is narrowed only to nothing |
| SchemaMeaning.UndeclaredNamesWiden | openppx/core/deepseek_litellm.py:22-26 | a schema read as its own document, clean but for its own required names, is narrowed if and only if these are declared or the rewritten form accepts nothing |
| SchemaMeaning.UndeclaredBelowWidens | openppx/core/deepseek_litellm.py:22-26 | so is a schema anywhere in a document, if what its references lead to is clean |
| SchemaMeaning.RootReferenceAcceptsNothing | openppx/core/deepseek_litellm.py:16-20 | a schema that is itself a reference accepts nothing once rewritten |
| SchemaLimits.OneOfWidens | openppx/core/deepseek_litellm.py:41-46 | with `oneOf` a value that was refused is accepted |
| SchemaLimits.NotWidens | openppx/core/deepseek_litellm.py:28-33 | so it is with `not` above a reference |
| SchemaLimits.IfWidens | openppx/core/deepseek_litellm.py:28-33 | and with `if` above one |
| SchemaLimits.AnyObjectWidens | openppx/core/deepseek_litellm.py:22-46 | all three at the schema of any object and every object that is not empty |
| SchemaLimits.NeedsWidens | openppx/core/deepseek_litellm.py:22-26 | an object schema that requires one undeclared name refuses the empty object, and accepts it once rewritten |
| SnapshotRefs.BuildSnapshotRefs | openppx/browser/playwright_runtime.py:76-121 | the loop over entries gives the payload and selector maps of the elements taken |
| SnapshotRefs.NextRef | openppx/browser/playwright_runtime.py:98-104 | the first free number from the counter on |
| SnapshotRefs.RefsDistinct | openppx/browser/playwright_runtime.py:106-120 | no reference is given twice |
| SnapshotRefs.MapsShareRefs | openppx/browser/playwright_runtime.py:115-121 | both maps have the same references, one for each element |
| SnapshotRefs.TakesTheFirst | openppx/browser/playwright_runtime.py:106-112 | the first entries with a selector are taken, as many as allowed, each with its own role and name |
| SnapshotOutcomes.RefsAreNumbers | openppx/browser/playwright_runtime.py:26 | the references accepted from before are exactly those that can be given: an `e` and a number from one on |
| SnapshotOutcomes.KnownIs | openppx/browser/playwright_runtime.py:90-95 | a selector has the reference of the last previous pair that has it and a valid reference |
| SnapshotOutcomes.GivenInOrder | openppx/browser/playwright_runtime.py:98-115 | each element gets its known reference if no earlier element has it, and otherwise the least number that no earlier element has |
| SnapshotOutcomes.UsableNext | openppx/browser/playwright_runtime.py:109-111 | an entry counts exactly if its selector is not blank |
| SnapshotOutcomes.InfoSays | openppx/browser/playwright_runtime.py:116-119 | role and name are trimmed, and a blank role reads as an element |
| SnapshotOutcomes.MapsSay | openppx/browser/playwright_runtime.py:115-120 | both maps say of each reference what its element is |
| SnapshotRefs.KnownIsOneToOne | openppx/browser/playwright_runtime.py:90-95 | no two selectors had the same reference |
| SnapshotRefs.KeptUnlessTaken | openppx/browser/playwright_runtime.py:112-115 | an element of a known selector has its reference if and only if no earlier element has it |
| SnapshotRefs.KnownKeepsExactly | openppx/browser/playwright_runtime.py:98-115 | the first element of a known selector keeps its reference if and only if the counter for new ones has not passed it |
| SnapshotRefs.KnownKeepsRef | openppx/browser/playwright_runtime.py:112-115 | so it does when no unseen or repeated selector precedes it |
| SnapshotRefs.UnseenTakesRef | openppx/browser/playwright_runtime.py:112-115 | an unseen selector before it can take it |
| SnapshotRefs.RerunReturnsTheSame | openppx/browser/playwright_runtime.py:76-121 | the same elements in any order, with the previous mapping in any order, get the same mapping |
| ActionResolver.ActionRegistry.Register | openppx/actions/registry.py:69-90 | the first refusal that applies, or the Action with its static names |
| ActionResolver.ActionRegistry.RegisterDynamicSlash | openppx/actions/registry.py:92-117 | a provider for an existing Action without static names, once |
| ActionResolver.ActionRegistry.DynamicCommandBindings | openppx/actions/registry.py:199-229 | grouping the offers by name leaves those offered exactly once |
| ActionResolver.ActionRegistry.Catalog | openppx/actions/registry.py:123-167 | the catalog of one caller, filtered and in the order of ids |
| ActionResolver.ActionRegistry.ResolveSlash | openppx/actions/registry.py:169-197 | token, lookup, argument rule and argument parser, with each refusal |
| ActionOutcomes.RegisterAnswers | openppx/actions/registry.py:79-87 | a registration is refused for a known id, a missing or needless adapter, the first taken name, in this order |
| ActionOutcomes.RegisterAdds | openppx/actions/registry.py:88-90 | an accepted one adds the Action and its names, and nothing else changes |
| ActionOutcomes.ProviderAnswers | openppx/actions/registry.py:104-117 | a provider is refused for an unknown Action, one with names of its own, one that has a provider, in this order |
| ActionOutcomes.CommandNameIs | openppx/actions/models.py:26 | a command name is a slash and one word, or two with a colon between, of lower-case letters, digits and hyphens |
| ActionOutcomes.HandleIs | openppx/actions/registry.py:178-181 | a handle is what is alphanumeric once its underscores are gone |
| ActionOutcomes.TokenSays | openppx/actions/registry.py:176-193 | the text up to the first space in lower case, without a handle after its last `@` if a slash begins it; the rest, trimmed, are the arguments |
| ActionOutcomes.BoundExactly | openppx/actions/registry.py:199-229 | a name that is not static is bound for a caller if and only if it is offered to that caller at one position of one provider, and to what is there |
| ActionOutcomes.StaticFirst | openppx/actions/registry.py:182-187 | a static name is what it was registered for, with or without a caller, and without one nothing else is bound |
| ActionOutcomes.CatalogLists | openppx/actions/registry.py:138-151 | which Actions are listed: by namespace and projection, and for slash also by a dynamic name |
| ActionOutcomes.EntrySays | openppx/actions/registry.py:143-167 | an Action is listed with its own commands as declared, or with exactly its dynamic ones in the order of their names |
| ActionCatalog.RegisterKeepsCoherent | openppx/actions/registry.py:69-90 | static names are exactly the declared commands, and a registration never rebinds one |
| ActionAgreement.AnyRegistrations | openppx/actions/registry.py:69-117 | so it is after any registrations |
| ActionAgreement.ListedIffBound | openppx/actions/registry.py:123-186 | a command is listed for a caller under an Action if and only if its name is bound for that caller to that Action |
| ActionAgreement.CatalogAscends | openppx/actions/registry.py:123-167 | a catalog lists each Action once, in the order of ids |
| ActionAgreement.OtherProjections | openppx/actions/registry.py:131-151 | other projections list static commands only, the same for every caller |
| ActionAgreement.StaticNotShadowed | openppx/actions/registry.py:220-221 | a static name stays what it is, whatever providers offer |
| ActionAgreement.TwoOffersHide | openppx/actions/registry.py:225-229 | a name two Actions offer is bound to neither |
| ActionAgreement.SingleOfferIsBound | openppx/actions/registry.py:225-229 | a name one Action offers once and no other offers is bound to it |
| ActionResolver.TypedName | openppx/actions/registry.py:176-181 | a name typed with a handle and arguments reads as the name |
| ActionResolver.ResolvedIsListed | openppx/actions/registry.py:169-197 | whatever text resolves, its command is listed for the caller, under that Action alone |
| ActionResolver.ListedIsResolved | openppx/actions/registry.py:169-197 | a listed command is found when typed, and refused only for its arguments |

## Left out

- AutomationTables.AutomationStore.CreateDefinition: the trigger row of the same transaction is in `ScheduleCalls`.
- AutomationRuns.AutomationService.FinishRun: the Task row kept for a run is not modelled.
- RunMoves.StartKeeps: the store calls of one start are one step. What another thread does between them has the effect of doing it before or after, apart from the order of events.
- RunMoves.DrainKeeps: so are those of one drain, up to the start of the run it picks.
- RunMoves.SettleKeeps: so are the completion of a run and the pause after its stop phrase.
- RunPolicies.SerialExactly: requests that fall between the end of a turn and its drain, and rejected rows that a drain takes up before their mark, are excluded by `Prompt`; `RunTraces` shows what they lead to.
- AutomationRuns.AutomationService.ReconcileRuntime: of more than 10,000 definitions any selection may be the one that is read, not only the latest.
- AutomationRuns.AutomationService.SkipMissed: the store is taken to have one run for each occurrence, as `Occurrences.OccurrenceOnce` proves.
- AutomationTables.AutomationStore.QueuedRunsOf: runs created in the same millisecond are ordered by insertion, which the query leaves open.
- AutomationTables.AutomationStore.ListIncompleteRuns: so they are here.
- RunAges.RestartsNeverBreak: it relies on that order among runs of the same millisecond, as `RunAges.NobodyOverlooked` does.
- RunDrain.RunAttempts: pauses between attempts, budgets and the attempt counter of the run row are left out, and nothing raises after completion.
- Schedules.SyncIdempotent: one time stands for the several clock readings of one synchronisation.
- ScheduleCalls.CallKeepsQuiet: a service call is one step; the crash inside it is `CrashLeavesSecondJob`. Revoking permissions is an update followed by a transition.
- ScheduleOverlaps.OrphansExactly: once a client has read the trigger, looking up the job, writing it, storing its id and reporting its due time are one step.
- StructuralDiff.DiffEmpty: values are compared as JSON, where a boolean is never equal to a number, as Python's `==` would have it; a typed document never has both at one path.
- ConfigFiles.ConfigService.PreviewAgent: permission snapshots of the preview are left out.
- ConfigFiles.ConfigService.WriteNode: a Node file that cannot be parsed is left out.
- ConfigFiles.ConfigService.WriteAgent: lock timeouts and I/O errors are left out; a damaged resource is one whose name does not match.
- StrictTools.EnforceStrict: schemas are values, so a sub-schema shared by two parents of one document is not modelled as shared; the traversal order is.
- SchemaPointers.ResolveNamed: references to other documents, `$id`, percent-encoding, and pointers to what is not a schema or stands beside a reference below the root lead nowhere.
- SchemaMeaning.StrictOnlyNarrows: keywords other than those of the cited sections are one abstract assertion about the value.
- AgentClients.ApartIsSafe: a Node document applied as a whole is taken to keep the enabled ids; one that names ids of its own is not modelled.
- ScheduleStartup.ReconcileBijection: a restart is modelled up to the 10,000 definitions it reads.
- ActionResolver.ActionRegistry.Catalog: availability computed by the server is left out.
- ActionResolver.ActionRegistry.ResolveSlash: the argument parser, case mapping and character classes are parameters; availability and handlers are left out.
- `run_scheduled` enumerates missed occurrences and runs them one after another: a sequence of requests and starts here.
- SQLite, files, JSON text, time zones, cron expressions and the scheduler's timers: maps, sequences and abstract clocks.
- Agent turns, sessions, models, prompts, tasks, Goals and TaskFlows: a turn succeeds or fails.
- Browser, HTTP, CLI, MCP and Desktop plumbing: easy members only.
