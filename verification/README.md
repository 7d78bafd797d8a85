# A model of the engineering control plane

The application keeps its state in SQLite tables; route handlers and services are the steps that
change them, and git, shell commands, HTTP calls and language-model calls answer from outside. This
project models the parts of it that have to stay correct over whole runs and under interleaving, and
proves what they promise. A table is a sequence or map inside a state or a class, a handler or one SQL
statement is an atomic step, and everything outside is an oracle that may answer anything.

| files | what they model |
|---|---|
| `StableSort`, `TaskReadiness`, `CandidateSets`, `WavePlanning` | which Tasks one execution wave selects and why the others wait |
| `WaveProtocol` | concurrent scheduler passes over wave numbers and Task reservations |
| `FailureStreaks` | failed launches in a row, and how many there can be when passes overlap |
| `AutonomousExecution` | live sessions and launch failures of a Change over whole runs |
| `IntegrationReadiness` | sources merged into one Integration Workspace, tests, and readiness for one exact commit |
| `Transcript`, `Markers`, `FieldBody`, `ReportText`, `CompletionReport` | the completion-report parser and a printer that inverts it |
| `PtyFanOut` | the bounded output buffer of a session, its reader thread and its viewers |
| `DeploymentRun`, `Deployments` | one background deployment, and the deployments table with its guard, rollbacks and restarts |
| `DependencyCycle` | the worklist search for runtime dependency cycles, and the saves it guards |
| `DesignRefinement` | the bounded review loops and the supersession chains they leave |
| `ChangeList` | the lazy list of Changes against evaluating every row |
| `Authorization` | batched visibility against the per-Task resolver and the read guard |
| `Wrappers` | an optional value |

Services that change things step by step appear twice: as methods with loops and fields
(`Scheduler.RunChange`, `Integration.MergeLatest`, `DeploymentTable.RollbackDeployment` and so on), each
proved to do what a function says, and as that function, about which the lemmas speak. The lemmas whose
comment starts with MAIN are the main results. Lemmas by induction, and those of the modules whose lemmas
take functions as parameters, turn automatic induction off, so that their proofs are the ones written.

Where the code and its own words differ, the model follows the code:

- With parallel execution off, a wave is said to make exactly the choice of `run_change`
  (app/services/execution_wave_service.py:162-165). It does so if and only if the two capacity tests
  agree; `WavePlanning.SerialWaveMatchesRunChange` gives the condition.
- The serial cap is 1 whatever `max_concurrent_builders` says, so a configured cap of zero is exceeded
  (`AutonomousExecution.SerialWaveIgnoresZeroCap`); `CapHoldsExactly` gives the condition.
- The reservation is described as the double-launch guard. It keeps launch windows apart, but a stale
  plan launches the same Task again after the first window closes (`WaveProtocol.StalePlanLaunchesTwice`);
  the live sessions of a Task are bounded by the plans that hold it at once
  (`WaveProtocol.SessionsWithinOverlap`), and by nothing less.
- A deferral for missing parallel safety may name a Task that the capacity limits then keep out of the
  same wave (`WavePlanning.SafetyDeferralAgainstUnselected`); it never makes the wave smaller
  (`WavePlanning.PlanSafetyDeferrals`).
- Creating an Integration records a merged commit even when the merge was refused
  (`IntegrationReadiness.RefusedSourceIsRecorded`), and merging the latest changes then skips that source
  (`RefusedSourceIsSkipped`); the ancestor check is what makes readiness sound.
- The report parser says that WORK_STATUS must be exactly READY or FIX_REQUIRED; the code strips and
  upper-cases it first, and so does the model (`CompletionReport.LowerCaseAccepted`, `LigatureAccepted`).
- `_wait_ready` compares buffer lengths, so it says nothing once the buffer is full
  (`PtyFanOut.SaturatedAlwaysLooksQuiet`). `live_tail(0)` gives the whole buffer.
- A send to a viewer that fails is swallowed and the viewer stays subscribed, so it sees a gap
  (`PtyFanOut.FailedSendLeavesGap`).
- The in-flight guard compares `task_id` with `=`, which NULL never satisfies: Release deployments are
  not guarded, and their rollback target can be overtaken (`Deployments.ReleaseLineageCanMove`);
  `Deployments.TargetStaysExactly` says when it is not.
- The dependency check runs when a contract is saved, not when a repository is registered
  (`DependencyCycle.RegisteringCanCloseCycle`).

Assumptions: one handler, or one SQL statement where the interleaving matters, is atomic, and a
statement on the database does not fail except by a constraint; every row of a `create` call is written
in one step; ids start at 1; the merges of one request see one tip per branch.

## Model

| member | source | states |
|---|---|---|
| StableSort.SortPermutes | app/services/autonomous_execution_service.py:432-435 | sorting loses and invents nothing |
| StableSort.SortIsStable | app/services/autonomous_execution_service.py:432-435 | for every total preorder the result is in order and elements with equal keys keep their order |
| TaskReadiness.RepeatedFailures | app/services/autonomous_execution_service.py:277-293 | the scan of the newest three events returns the length of the whole trailing failure streak, cut off at three |
| TaskReadiness.VerdictExactly | app/services/autonomous_execution_service.py:296-410 | a Task is ready, with the repository of its Change and the default provider, if and only if it meets every condition; each other verdict is given if and only if its own condition is the first, in the order of the source, that is not met |
| TaskReadiness.ListAutoReadyTasks | app/services/autonomous_execution_service.py:420-438 | the loop computes the sorted list of ready Tasks with their repository and provider |
| TaskReadiness.ReadyPartition | app/services/autonomous_execution_service.py:420-438 | ready and not-ready Tasks together are exactly the given Tasks, each as often as given, and every listed Task was evaluated AUTO_READY with that repository and provider |
| TaskReadiness.ReadyInOrder | app/services/autonomous_execution_service.py:426-435 | the list is ordered by dependency depth, then plan order, and stable where both agree |
| TaskReadiness.FirstReady | app/services/autonomous_execution_service.py:420-438 | the ready list is empty if and only if no Task is ready, and no ready Task comes before its first by dependency depth and then plan order |
| CandidateSets.EvaluateCandidateSet | app/services/parallel_safety_service.py:173-197 | the nested loop returns the greedy safe set and one deferral, against the first conflict, for every other candidate |
| CandidateSets.SafeSetIsSafe | app/services/parallel_safety_service.py:173-197 | every two members of the safe set are safe with each other |
| CandidateSets.UnsafeDeferralsJustified | app/services/parallel_safety_service.py:183-196 | a candidate is left out only for a conflict with a member of the final safe set |
| CandidateSets.SplitSafe | app/services/parallel_safety_service.py:173-197 | safe set and deferrals together are the candidates, each exactly once |
| CandidateSets.ProviderHasRoom | app/services/execution_wave_service.py:197-204 | the cached live count gives the same answer as reading it every time |
| CandidateSets.SelectWithinCapacity | app/services/execution_wave_service.py:188-208 | the loop with its running counts and cache computes the greedy capacity selection and its deferrals |
| CandidateSets.ProvidersCount | app/services/execution_wave_service.py:187-205 | the multiset the capacity results speak about counts the candidates of each provider |
| CandidateSets.TakenIsOptimal | app/services/execution_wave_service.py:188-208 | the selection respects the project room and every provider's room, and no selection with at most as many candidates of each provider that respects them is larger |
| CandidateSets.TakenSize | app/services/execution_wave_service.py:188-208 | its size is the smaller of the project room and the sum over the providers of min(candidates, room) |
| CandidateSets.SplitCapacity | app/services/execution_wave_service.py:192-208 | selected and deferred together are the safe candidates, each exactly once |
| CandidateSets.CapacityDeferralsJustified | app/services/execution_wave_service.py:193-204 | every capacity deferral still holds against the final selection |
| WavePlanning.PlanExecutionWave | app/services/execution_wave_service.py:137-209 | the method computes the plan the lemmas speak about, branch by branch |
| WavePlanning.PlanPartitionsTasks | app/services/execution_wave_service.py:148-209 | an enabled plan places every eligible Task exactly once, in selected or in deferred |
| WavePlanning.PlanJustifiesDeferrals | app/services/execution_wave_service.py:154-204 | every deferral is justified: a Task that is not ready waits for exactly its verdict; a ready one for capacity that the final selection has used up, for its busy serial repository, or for a Task it is not safe with that is selected or itself deferred for capacity |
| WavePlanning.ReadyIsUniform | app/services/autonomous_execution_service.py:353-356 | when the Change gives one repository and the installation one provider, all ready candidates share both |
| WavePlanning.PlanSafetyDeferrals | app/services/execution_wave_service.py:184-208 | the selection is the beginning of the safe set, as long as the smaller of both rooms allows; a safety deferral names a Task outside it if and only if that Task stands later in the safe set, and then the wave is as large as any feasible selection of the ready Tasks |
| WavePlanning.SafetyDeferralAgainstUnselected | app/services/execution_wave_service.py:184-208 | such a plan: of three ready Tasks one is selected, one waits for capacity and the third is deferred against that one |
| WavePlanning.PlanSelectsWell | app/services/execution_wave_service.py:159-208 | every selected Task is ready, not held back by a busy serial repository and from a pairwise safe set; with the live sessions the selection stays within the cap of the Change, or within one with parallel off, and within the cap of every provider; and no selection of the safe candidates that does is larger |
| WavePlanning.SerialWaveMatchesRunChange | app/services/execution_wave_service.py:162-171 | with parallel off the wave picks the Task of run_change if and only if the capacity tests agree |
| WaveProtocol.WaveNumbersAreExact | app/services/execution_wave_service.py:233-246 | in every state of every interleaving the stored numbers of a Change are 1..n in order |
| WaveProtocol.GivingUpNeedsContention | app/services/execution_wave_service.py:233-249 | a pass gives up only after five other waves of its Change were numbered while it tried |
| WaveProtocol.FiveAttempts | app/services/execution_wave_service.py:233-249 | a pass tries at most five times to store its wave, and gives up exactly when it would have to try a sixth time |
| WaveProtocol.AcceptsFresh | app/db.py:1368-1378 | the number read is one more than the count, and the UNIQUE constraint accepts exactly numbers above it |
| WaveProtocol.WindowsNeverOverlap | app/services/execution_wave_service.py:269-285 | at most one pass is inside the launch window of a Task |
| WaveProtocol.RowsMarkWindows | app/services/execution_wave_service.py:269-285 | the reservation rows are the open windows and the leaked rows; rows and windows agree if and only if nothing leaked |
| WaveProtocol.TasksInOrder | app/services/execution_wave_service.py:257-301 | a pass tries to reserve the Tasks of its plan in order, each once, gets into the window of one exactly when it is not reserved, and is finished after the last |
| WaveProtocol.EmptyWhenFinished | app/services/execution_wave_service.py:281-285 | unless a pass died inside a window, the table is empty once all passes have finished |
| WaveProtocol.EmptyAfterReconcile | app/services/execution_wave_service.py:65-87 | after a crash and the startup reconciliation the table is empty, the wave rows are kept and no pass is left |
| WaveProtocol.OnlyReconcileAfterCrash | app/services/execution_wave_service.py:65-87 | after a crash only the reconciliation can happen, and it finds the tables as the crash left them |
| WaveProtocol.SessionsWithinOverlap | app/services/execution_wave_service.py:257-301 | when at most k passes hold a plan with a Task still ahead at once, the Task never has more than k live sessions, in any interleaving |
| WaveProtocol.SessionsExactly | app/services/execution_wave_service.py:274-301 | in every run a Task gets one session exactly when a pass inside its window launches it with success, and loses one exactly when one ends, or all at a reconciliation |
| WaveProtocol.OverlapIsTight | app/services/autonomous_execution_service.py:541-586 | for every k some run with overlap k gives the Task k live sessions |
| WaveProtocol.OneSessionExactly | app/services/autonomous_execution_service.py:541-586 | a Task has at most one live session in every run whose overlap on it is within k if and only if k is at most one |
| WaveProtocol.StalePlanLaunchesTwice | app/services/autonomous_execution_service.py:541-586 | a run with two plans of a Task without a session ends with two live sessions of it |
| WaveProtocol.Tables.AllocateWave | app/services/execution_wave_service.py:233-246 | alone, the first attempt succeeds whatever rows are stored, with the next number |
| WaveProtocol.Tables.RunExecutionWave | app/services/execution_wave_service.py:213-309 | alone, a pass adds one numbered wave, gives every Task its placement, releases every reservation and sets the status from the placements |
| AutonomousExecution.RunKeepsOnePerTask | app/services/autonomous_execution_service.py:370-371 | every run keeps at most one live session for a Task, launches of named Tasks and of FIX Tasks included |
| AutonomousExecution.LaunchedWasReady | app/services/autonomous_execution_service.py:441-529 | in every run, a Task that run_change, a wave or a named launch has launched or tried to launch met every condition of evaluate_task in the view read, had no session and no three failures last; a disabled policy launches nothing |
| AutonomousExecution.RunChangeExactly | app/services/autonomous_execution_service.py:441-463 | nothing is launched when the policy is off, the cap reached or no Task meets every condition; otherwise the Task that does and comes first by dependency depth and plan order |
| AutonomousExecution.NamedLaunchExactly | app/services/autonomous_execution_service.py:521-529 | a named launch launches exactly a Task that meets every condition |
| AutonomousExecution.LaunchedExactly | app/services/autonomous_execution_service.py:541-586 | a launch writes that to the log of its own Task alone, and leaves a session when it starts or fails late |
| AutonomousExecution.RunKeepsCap | app/services/execution_wave_service.py:165-193 | run_change passes, wave passes and ending sessions keep a Change's live sessions within the cap if it is at least one, or if no wave is serial |
| AutonomousExecution.CapHoldsExactly | app/services/execution_wave_service.py:165-193 | the cap holds over all such runs if and only if it is not zero or no wave is serial |
| AutonomousExecution.WaveBounds | app/services/execution_wave_service.py:165-208 | one wave pass leaves the sessions as they are, or within the cap of its policy, and launches none beside a live one |
| AutonomousExecution.SerialWaveIgnoresZeroCap | app/services/execution_wave_service.py:165 | with parallel off a cap of zero is exceeded |
| AutonomousExecution.NamedLaunchIgnoresCap | app/services/autonomous_execution_service.py:521-529 | launch_task_if_ready adds a session however many are live |
| AutonomousExecution.NeverFourFailures | app/services/autonomous_execution_service.py:373-376 | no run of passes and fix launches records four failed launches of a Task in a row, FIX Tasks included |
| AutonomousExecution.ProviderCapHoldsExactly | app/services/execution_wave_service.py:188-204 | the cap of a provider holds over every run that starts within it if and only if the only launches besides those of waves are run_change's, and those only where the Change's own cap is the tighter one |
| FailureStreaks.OverlapBoundsStreak | app/services/autonomous_execution_service.py:373-376 | when at most k passes hold a ready verdict for the Task at once, and f review-fix ticks overlap its creation, no run records k + f + 3 in a row |
| FailureStreaks.OverlapBoundIsTight | app/services/autonomous_execution_service.py:580-585 | some run records k + f + 2 in a row |
| FailureStreaks.StreakBoundMeaning | app/services/autonomous_execution_service.py:277-293 | a streak bound of n means that among any n + 1 consecutive events one is a launch |
| FailureStreaks.LoggedExactly | app/services/autonomous_execution_service.py:580-585 | a launch ends a failure streak, a failed start makes it one longer, a blocked one leaves the log |
| AutonomousExecution.Scheduler.RunChange | app/services/autonomous_execution_service.py:441-463 | launches and answers as the functions do about which the lemmas speak |
| AutonomousExecution.Scheduler.LaunchWave | app/services/execution_wave_service.py:257-301 | launches the selection in order |
| AutonomousExecution.Scheduler.Tick | app/services/autonomous_execution_service.py:471-496 | every Change is run as run_change would until a Builder is launched, and every later one is skipped |
| AutonomousExecution.TickLaunchesOnce | app/services/autonomous_execution_service.py:471-496 | at most one Builder is launched by a tick, and its answer says whether one was |
| IntegrationReadiness.Integration.CreateIntegration | app/main.py:2752-2758 | the source loop computes the creation the lemmas speak about, refused merges and duplicates included |
| IntegrationReadiness.CreationResult | app/main.py:2744-2758 | whatever the merges do, the recorded sources are a prefix of those selected, each at its tip; with status TESTING they are all of them; all recorded ones are merged if and only if no recorded merge was refused, as git refuses no tip the worktree already holds |
| IntegrationReadiness.CreationExactly | app/main.py:2744-2758 | creation stops at the first source that does not merge cleanly or is selected twice; the base has gained exactly the sources before it, which are recorded at their tips; a refused one is recorded too, and the status tells how it ended |
| IntegrationReadiness.RefusedSourceIsRecorded | app/main.py:2753-2756 | a refused merge is recorded although its commit is no ancestor of the worktree |
| IntegrationReadiness.MergeAdds | app/services/git_workspace.py:111-113 | a clean merge keeps every ancestor and adds the tip |
| IntegrationReadiness.GateExactly | app/services/task_decision_service.py:505-573 | the test gate passes at a commit if and only if no stage is required, or at least as many different stages have a row there and of every stage that has one the newest says PASS or is waived |
| IntegrationReadiness.FailureRefusesMark | app/main.py:2876-2880 | a required stage whose newest row at HEAD failed, timed out, was skipped or has not ended, and is not waived, refuses the mark |
| IntegrationReadiness.Integration.IntegrationDetail | app/main.py:2763-2768 | the view takes readiness back exactly when the commit or a source is stale |
| IntegrationReadiness.Integration.MergeLatest | app/main.py:2819-2843 | invalidates first, skips sources that have not moved, and stops at a refused merge without recording it |
| IntegrationReadiness.ProgressKeepsGate | app/services/task_decision_service.py:495-581 | a gate that passes at a commit is not changed by the run in progress |
| IntegrationReadiness.RestartKeeps | app/services/test_runner.py:22-38 | a restart marks every unfinished row FAIL, changes nothing else and keeps every readiness claim sound |
| IntegrationReadiness.TestsStartedExactly | app/main.py:2858-2864 | tests are started only when none are unfinished, with one queued row for each stage of the contract at HEAD |
| IntegrationReadiness.RunIsSound | app/main.py:1482-1502 | in every state of every run, ready implies that each recorded source is an ancestor of the verified commit and that the required stages passed there or were waived |
| IntegrationReadiness.ReadyIsCurrentAfterView | app/main.py:2763-2768 | just after a view a ready commit is HEAD and every source branch is at its recorded, merged commit; ready_main marks HEAD exactly when the worktree is clean, no source has moved, all are merged and the required stages passed or were waived, and else changes nothing |
| IntegrationReadiness.ReadyStaysExactly | app/main.py:1402 | a ready row stays ready in exactly the steps that are not a merge of the latest changes, a start or end of tests, or a view that finds HEAD or a source moved; only ready_main makes a row ready |
| IntegrationReadiness.ReadyIsReached | app/main.py:2867-2882 | some run from a creation ends with the row ready |
| IntegrationReadiness.ReadyCanBeOutdated | app/main.py:2763-2768 | between views a ready row can be behind HEAD; it stays sound and the next view takes it back |
| IntegrationReadiness.MergeAncestors | app/services/git_workspace.py:111-113 | the ancestors of a clean merge are exactly those of the head and those of the tip |
| IntegrationReadiness.LatestGains | app/main.py:2829-2840 | the worktree ends up with exactly what it held and what the moved branches bring, up to the first that does not merge cleanly |
| IntegrationReadiness.LatestRecords | app/main.py:2829-2840 | up to there every source is recorded at its tip, from there on none is; only a refusal sets the status |
| IntegrationReadiness.MergeLatestMakesCurrent | app/main.py:2829-2840 | a merge of the latest changes without refusal leaves every source current if and only if every source it skips, because its branch has not moved, was merged before or comes with a branch that has moved |
| IntegrationReadiness.RefusedSourceIsSkipped | app/main.py:2831-2832 | a source refused at creation is skipped and not made current while its branch stays where it is |
| CompletionReport.ParseReport | app/services/completion_report_parser.py:45-94 | the method, with its grouping and cleaning loops, computes the parse the lemmas speak about |
| Transcript.StripAnsiExactly | app/services/completion_report_parser.py:14-27 | a complete escape sequence (CSI with parameters and a letter, OSC up to BEL, keypad mode) at the start of a text is deleted as a whole; where none starts, the first character is deleted if it is a control character other than tab and line ends, and else kept |
| Transcript.WovenStrips | app/services/completion_report_parser.py:20-27 | escape sequences put anywhere into plain text are all deleted and nothing else is |
| Transcript.StripAnsiConcat | app/services/completion_report_parser.py:14-27 | stripping distributes over a join at a line boundary, unless the second text has a BEL and the first leaves an OSC sequence open |
| Transcript.StripAnsiLeavesNoControl | app/services/completion_report_parser.py:14-27 | no control character of the expression's class survives |
| Transcript.StripAnsiIdempotent | app/services/completion_report_parser.py:20-27 | stripping twice is stripping once |
| Transcript.LineEndsExactly | app/services/completion_report_parser.py:57-60 | a carriage return becomes a line feed, together with a line feed after it |
| Transcript.CleanTranscriptConcat | app/services/completion_report_parser.py:57-60 | stripping and line-ending normalisation together distribute over such a join |
| Transcript.ShownAfter | app/services/completion_report_parser.py:57-60 | text with escape sequences anywhere and carriage returns before line feeds is cleaned to the plain text it shows |
| Markers.GroupMatches | app/services/completion_report_parser.py:62-77 | one pass that overwrites entries leaves for every field the text after its last marker line |
| Markers.LastBodyConcat | app/services/completion_report_parser.py:72-77 | joined at a marker line, fields of the second text come from it and the others keep their body |
| Markers.MarkedBlock | app/services/completion_report_parser.py:61-77 | one marker line and an unmarked body give exactly that field with exactly that text |
| FieldBody.CutAtHeading | app/services/completion_report_parser.py:38-41 | the loop cuts at the first heading line |
| FieldBody.CleanBody | app/services/completion_report_parser.py:30-42 | the method computes the cleaned body |
| FieldBody.CleanPlainBody | app/services/completion_report_parser.py:30-42 | cleaning gives back a plain body from its printed frame |
| FieldBody.CleanExactly | app/services/completion_report_parser.py:30-42 | lines with blanks behind them and any line breaks between them, with line feeds around them or a heading and anything else after them, are cleaned to the lines without those blanks, joined by line feeds, less the white space around the whole |
| ReportText.PrintedOverrides | app/services/completion_report_parser.py:72-87 | printed after any text that ends a line, a report overrides it field by field, with cleaned bodies |
| ReportText.PrintedDistance | app/services/completion_report_parser.py:80-82 | the required fields of a printed report are close enough if and only if the first body with its frame and the second title fit the limit |
| CompletionReport.MarkerLine | app/services/completion_report_parser.py:61 | a field's name with a colon marks that field and no other |
| CompletionReport.MarkedExactly | app/services/completion_report_parser.py:61 | a line marks a field if and only if it is its name, an optional colon and blanks |
| CompletionReport.DocumentedMarkers | app/services/completion_report_parser.py:16 | the eight documented names |
| CompletionReport.ReportExactly | app/services/completion_report_parser.py:45-94 | after any transcript that ends a line, any printed report is accepted if and only if its cleaned status is one of the two words in upper case, something is left of what was changed, and the two bodies start within 8000 characters; it is read back cleaned, laid over the fields found before |
| CompletionReport.ShownParsesAlike | app/services/completion_report_parser.py:57-60 | escape sequences anywhere and carriage returns before line feeds make no difference to what is read |
| CompletionReport.StatusExactly | app/services/completion_report_parser.py:88-93 | a printed report without headings or outer blanks is accepted if and only if the upper case of its status is one of the two words, and is read back with the status in upper case |
| CompletionReport.LowerCaseAccepted | app/services/completion_report_parser.py:53-54 | a status written "ready" is accepted |
| CompletionReport.LigatureAccepted | app/services/completion_report_parser.py:88-89 | a status whose first two letters are the ligature U+FB01 is accepted |
| CompletionReport.DotlessAccepted | app/services/completion_report_parser.py:88-89 | and so is one with the dotless i U+0131 |
| CompletionReport.ParsePrinted | app/services/completion_report_parser.py:45-94 | after any transcript that ends a line, a printed report parses to itself laid over the fields found before |
| CompletionReport.RoundTrip | app/services/completion_report_parser.py:45-94 | a report with all eight fields is read back exactly, with or without escape sequences and carriage returns in its lines |
| CompletionReport.SecondReportOverridesFirst | app/services/completion_report_parser.py:46-48 | of two reports the second wins on its fields and the first fills its gaps |
| PtyFanOut.TrimmedIsLast | app/services/agent_session_manager.py:66-69 | extending and cutting the buffer keeps exactly the last bytes of the output |
| PtyFanOut.BufferIsLastOutput | app/services/agent_session_manager.py:56-75 | in every interleaving the buffer is the last min(total, cap) bytes |
| PtyFanOut.ViewerSeesOnePiece | app/services/agent_session_manager.py:90-99 | a viewer is sent bytes of the output in order and none twice; they follow on from its tail without a gap if and only if no send to it succeeded after one had failed, and then both are one contiguous piece; it is behind only by the chunk in hand and by failed sends |
| PtyFanOut.FailedSendLeavesGap | app/services/agent_session_manager.py:71-75 | a failed send followed by a successful one leaves a gap, whatever the viewer was sent before |
| PtyFanOut.SubscribersExactly | app/services/agent_session_manager.py:66-99 | in every run the subscribers are exactly the viewers that subscribed and have not left since, and every chunk is to be sent to exactly those subscribed when it is put out |
| PtyFanOut.LiveTailIsLastOutput | app/services/agent_session_manager.py:292-304 | a positive bound gives the end of the whole output, zero the whole buffer, a negative one the buffer less that many bytes at the front |
| PtyFanOut.WaitReady | app/services/agent_session_manager.py:194-217 | answers true exactly when some two rounds, before any closed one, frame a non-empty buffer of constant length for at least the window |
| PtyFanOut.ReadyMeansQuiet | app/services/agent_session_manager.py:194-217 | below the cap nothing was put out during that window |
| PtyFanOut.SaturatedAlwaysLooksQuiet | app/services/agent_session_manager.py:209-215 | at the cap the answer is true however much is put out |
| PtyFanOut.LivePtySession.Append | app/services/agent_session_manager.py:66-70 | the locked section keeps the buffer exact and returns the subscribers of that moment |
| PtyFanOut.LivePtySession.Subscribe | app/services/agent_session_manager.py:90-95 | adds the viewer and returns the end of the output |
| PtyFanOut.LivePtySession.Tail | app/services/agent_session_manager.py:301-304 | returns the end of the output for a positive bound |
| DeploymentRun.AdvanceKeeps | app/services/deployment_service.py:266-308 | every step keeps that the status tells the phase the run is in, that success needs both checks passed, that a named artifact commit is the row's and that a rollback never builds, and comes nearer to the end |
| DeploymentRun.RunEnds | app/services/deployment_service.py:266-288 | a run that is not cut short ends in a terminal status, the successful one exactly when every step succeeds, with every check it came to recorded as passed or failed |
| DeploymentRun.CheckHealth | app/services/deployment_service.py:392-418 | healthy exactly when there is an admissible URL and some attempt succeeds |
| DeploymentRun.Deployment.BuildOnce | app/services/deployment_service.py:224-264 | builds when needed, and refuses metadata that names another commit |
| DeploymentRun.Deployment.VerifyHealthAndSmoke | app/services/deployment_service.py:290-308 | records health, then smoke, and passes only with both |
| DeploymentRun.Deployment.Run | app/services/deployment_service.py:266-288 | the whole deployment leaves the row the step machine leaves |
| DeploymentRun.Deployment.RunRollback | app/services/deployment_service.py:483-512 | the same for a rollback |
| Deployments.OneActive | app/main.py:5279-5294 | at most one row of a Task, repository and environment is active, and only the newest |
| Deployments.GuardSeesAll | app/main.py:5250-5251 | looking at the newest row decides whether any row of the key is active |
| Deployments.RollbackExactly | app/services/deployment_service.py:433-481 | a rollback adds a row if and only if no deployment of its Task, repository and environment is under way and the newest earlier VERIFIED row of the lineage has an image that still exists; the row carries what that one deployed |
| Deployments.RollbackHadImage | app/services/deployment_service.py:457-460 | in every run, the image of a rollback row was present when the row was added |
| Deployments.DeployExactly | app/main.py:5279-5310 | a deploy or redeploy adds a row if and only if none is under way; a redeploy has the source commit and branch of the row redeployed |
| Deployments.ReleaseExactly | app/services/release_service.py:184-194 | a Release deploys its own artifact without a Task and without a guard; the row it builds with has no background run, and an artifact only if its metadata names no other commit |
| Deployments.RestartExactly | app/services/deployment_service.py:192-214 | a restart fails every row under way, rollbacks included, and changes no other |
| Deployments.StuckUntilRestart | app/services/deployment_service.py:192-214 | once the run of the newest deployment of a Task, repository and environment has died, every deploy, redeploy and rollback of it is refused in every continuation without a restart, and after one is accepted again |
| Deployments.StuckIsReached | app/services/deployment_service.py:192-206 | a run from empty tables gets a key into that state |
| Deployments.TerminalIsFinal | app/services/deployment_service.py:188-214 | a row that has ended is never changed again |
| Deployments.SuccessIsEarned | app/services/deployment_service.py:283-308 | VERIFIED and ROLLED_BACK only with health and smoke passed; a named artifact commit is the row's source |
| Deployments.RollbackLineage | app/services/deployment_service.py:433-481 | every rollback row carries exactly what the newest earlier VERIFIED row of its lineage carries, which is no rollback itself, in every later state too; it never builds and is never a target |
| Deployments.TargetStaysExactly | app/services/deployment_service.py:433-481 | the target of an accepted rollback stays the newest VERIFIED row before the row rolled back, in every continuation, if and only if no deployment of the lineage between the two can still succeed when it is requested |
| Deployments.CanBeVerified | app/services/deployment_service.py:266-288 | a live run that has met no failure can be carried through to VERIFIED by steps of its own |
| Deployments.ReleaseLineageCanMove | app/services/deployment_service.py:448-459 | in a run from empty tables a Release rollback is accepted and its target can still be overtaken |
| Deployments.NewestVerifiedIsNewest | app/services/deployment_service.py:433-461 | the target query finds the newest verified row before the given one |
| Deployments.DeploymentTable.RollbackDeployment | app/main.py:5315-5329 | adds the rollback row exactly when none is in flight and there is a target whose image exists |
| Deployments.DeploymentTable.ReconcileOnStartup | app/services/deployment_service.py:192-214 | fails every active row and changes no other |
| DependencyCycle.CheckDependencyCycle | app/main.py:2038-2057 | ends on every graph and answers true exactly when some proposed dependency reaches the repository |
| DependencyCycle.UpdateKeepsAcyclic | app/main.py:2130-2135 | new dependencies keep an acyclic graph acyclic if and only if none of them reaches the repository |
| DependencyCycle.SaveRuntimeSandbox | app/main.py:2121-2140 | a save is accepted exactly when there is no cycle, every name is that of another enabled repository and given once, and the other settings are valid; a refused one writes nothing |
| DependencyCycle.SavesKeepAcyclic | app/main.py:2121-2140 | any sequence of accepted saves keeps the graph acyclic |
| DependencyCycle.RegisteringCanCloseCycle | app/main.py:2029-2033 | registering a repository can close a cycle, as no check runs there |
| DesignRefinement.ArchitectureRun | app/services/architecture_design_service.py:1107-1136 | at most max_rounds reviews and max_rounds - 1 refinements, counted in the rows they leave; one supersedes chain with exactly the last revision not SUPERSEDED and current; ready exactly when some round within the limit passes, and then approved |
| DesignRefinement.DesignRun | app/services/architecture_design_service.py:1139-1203 | the same for designs and their UI revisions, whether or not a UI refinement failed; a failed first design writes nothing, a failed first UI artifact leaves the design in DRAFT |
| DesignRefinement.RoundsFinish | app/services/architecture_design_service.py:1116-1136 | from any state between rounds the loop ends with both chains intact, rows from before the run untouched and the last status telling the outcome |
| DesignRefinement.RoundsCount | app/services/architecture_design_service.py:1116-1136 | the review rows and revisions in the table are the review and refine calls made, less the one that failed |
| DesignRefinement.ReadyWhenPassed | app/services/architecture_design_service.py:1161-1199 | the loop is ready exactly when some round within the limit passes and every earlier one is refined |
| DesignRefinement.OutcomeExactly | app/services/architecture_design_service.py:1161-1203 | the loop has an outcome if and only if some round within the limit ends with it and every earlier one was refined, or no round is left |
| DesignRefinement.RoundsReported | app/services/architecture_design_service.py:1161-1203 | the rounds reported are the reviews made, less one whose review failed |
| DesignRefinement.ConflictIsInvalid | app/services/architecture_design_service.py:598-600 | the conflict verdict in an architecture review ends the run as invalid output |
| DesignRefinement.ChainIsCurrent | app/services/architecture_design_service.py:466-469 | the current artifact of the Change is the last revision of the chain |
| DesignRefinement.CurrentExactly | app/services/architecture_design_service.py:466-469 | the current work product is the last of its kind and Change that is not SUPERSEDED |
| DesignRefinement.NoRoundsNoReview | app/services/architecture_design_service.py:1116-1136 | a limit of zero or less ends without a review |
| DesignRefinement.WorkProducts.ReviewRound | app/services/architecture_design_service.py:1161-1199 | one round of the loop |
| DesignRefinement.WorkProducts.ReviewRounds | app/services/architecture_design_service.py:1161-1203 | the loop computes the rounds the lemmas speak about |
| DesignRefinement.WorkProducts.Architecture | app/services/architecture_design_service.py:1107-1136 | the whole architecture run |
| DesignRefinement.WorkProducts.Design | app/services/architecture_design_service.py:1139-1203 | the whole design run |
| ChangeList.PagesConcatenate | app/services/change_list_summary_service.py:105-109 | the pages 1..total_pages concatenate to the filtered list and all but the last are full |
| ChangeList.RecentAreNewest | app/services/change_list_summary_service.py:103 | recent activity is in order, as many rows as the limit leaves, negative ones too, and no row left out is newer than one shown |
| ChangeList.ShownAreRows | app/services/change_list_summary_service.py:95-109 | every shown row is a visible one |
| ChangeList.SummaryExactly | app/services/change_list_summary_service.py:55-109 | the summary counts exactly the rows of visible repositories, needing attention exactly those with an open decision or review, paged exactly those that pass the filters; the page is the one asked for or the nearest, of 1 to 200 rows |
| ChangeList.ChangeListSummaryService.EnsureStatus | app/services/change_list_summary_service.py:81-85 | fills the shared field at most once, with what evaluating the row gives |
| ChangeList.ChangeListSummaryService.EnsureAll | app/services/change_list_summary_service.py:87-93 | fills exactly the given rows |
| ChangeList.ChangeListSummaryService.Dedupe | app/services/change_list_summary_service.py:111-118 | keeps every object once |
| ChangeList.ChangeListSummaryService.SelectMatching | app/services/change_list_summary_service.py:95-98 | the filters give what they would give with every row evaluated |
| ChangeList.ChangeListSummaryService.Build | app/services/change_list_summary_service.py:53-126 | the lazy summary equals the eager one, every shown row has its eager status, only shown rows are evaluated unless a status filter needs all, and none twice |
| Authorization.RepoIdsForTask | app/services/authz_service.py:52-75 | the loop unions the three sources of a Task's repositories |
| Authorization.RepositoriesExactly | app/services/authz_service.py:52-75 | a repository is one of the Task's if and only if it is its scope, that of its Change, or that of one of its workspaces |
| Authorization.VisibleExactly | app/services/authz_service.py:297-313 | for every database the batched query lists exactly the Tasks that belong to a repository of an organization the user is a member of, which are those whose resolver meets the visible repositories |
| Authorization.RequireReadRole | app/main.py:665-700 | admits exactly when there is an organization and the user holds the role in all of them; 404 and 403 only for their reasons |
| Authorization.AdmitsExactly | app/main.py:665-700 | the guard admits to a Task if and only if it is in some organization and the user has the role or more in every one it is in |
| Authorization.AdmittedIsVisible | app/main.py:665-700 | any Task the guard admits is in the visible list |
| Authorization.VisibleButRefused | app/services/authz_service.py:20-24 | the converse fails exactly for a Task that also belongs to an organization the user is no member of |
| Authorization.RepositoryGuardIsExact | app/services/authz_service.py:282-295 | for a repository, list and guard agree for every user |
| Authorization.TwoOrganizations | app/services/authz_service.py:20-24 | a listed Task that the guard refuses |

## Left out

- Templates, cookies, redirects, prompt text and other user interface; login and CSRF tokens.
- Real git, docker, subprocesses, HTTP, PTYs and language models: their answers are parameters of the steps.
- Statements that fail for reasons other than a constraint, and races inside one handler other than those of the wave protocol, the test runner, the deployment run and the output reader.
- TaskReadiness.EvaluateTask: the answers of dependencies, gates, plans and roles are facts it reads; how they are computed is not modelled.
- CandidateSets.EvaluateCandidateSet: the two unsafe results of a pair are one reason, and each pair is asked for anew, where the source keeps its answers.
- CandidateSets.TakenIsOptimal: subsets are compared by their number of candidates per provider, which covers every subset of the candidates.
- WaveProtocol.SessionsWithinOverlap: the overlapping passes are those of waves; run_change launches without a reservation and is in AutonomousExecution.
- WaveProtocol.WaveNumbersAreExact: an insert fails only on its UNIQUE constraint, and the audit events and the rows of execution_wave_tasks are left out of the interleaving.
- AutonomousExecution.Scheduler.RunChange: the summary of why no Task is ready is one outcome, and the sorted Changes of a tick are given.
- AutonomousExecution.RunKeepsOnePerTask: the review-fix loop is there only with the launch of a FIX Task in the tick that creates it.
- AutonomousExecution.ProviderCapHoldsExactly: the sessions of the provider under other Changes stay as many as they are.
- AutonomousExecution.RunKeepsCap: passes are atomic, and sessions of other Changes appear only as the load a plan reads.
- IntegrationReadiness.RunIsSound: waivers are kept per failed row rather than per fingerprint, and the number of required stages is a function of the commit.
- IntegrationReadiness.Integration.MergeLatest: pushing, pull requests and the operation lock are not modelled.
- CompletionReport.RoundTrip: bodies hold plain text without markers, headings or outer blanks; `CompletionReport.ReportExactly` says what becomes of the others. Of upper-casing outside ASCII only the two characters that can give a letter of the two status words are modelled; no other can.
- PtyFanOut.ViewerSeesOnePiece: a viewer is a fresh callback; decoding, redaction and persisting a transcript are not modelled.
- DeploymentRun.RunEnds: phase rows are left out, as an unexpected exception leaves one RUNNING; so is the restoring of the checkout.
- Deployments.DeployExactly: that a deploy needs a Task that is DONE, a target and a merged commit is left out; the command starts once these are there.
- Deployments.StuckUntilRestart: the build row of a Release has no background run and ends only at a restart.
- Deployments.RollbackLineage: for Releases, which have no Task, only the first part holds for good; `Deployments.TargetStaysExactly` gives the rest.
- DependencyCycle.SavesKeepAcyclic: names are unique and the set of registered repositories is fixed; registration is treated in its own lemma.
- DesignRefinement.DesignRun: architecture decision records, human decisions, tasks linked to artifacts and the coverage of requirements are not modelled.
- ChangeList.ChangeListSummaryService.Build: the cheap signals are read once and given; memoisation inside the services is not modelled.
- Authorization.VisibleExactly: of the twenty resource kinds only Tasks and repositories are modelled.
- Methods without a loop that only write a row are proved but have no row of their own above.
- Port allocation, CRUD of Changes and work products, backup and migrations: easy members.
