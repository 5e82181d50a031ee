# Verification model of the agent Runtime

This project models the parts of the agent Runtime that have to be right whatever happens: Turns that
survive crashes, a transcript that stays valid for the provider, history compaction that must not claim
more than was summarized, results and texts held within byte limits, structured patches that apply
completely or not at all, streaming file readers, and the bounded tables of process sessions. It proves
what these parts promise, for all inputs, all runs and all crash points.

## How it is built

Objects that the Runtime updates in place are classes whose methods are proved against functions or
relations on their contents; pure code is functions and lemmas. What lies outside the Runtime (the clock,
the user's answer, the model, tools, the operating system, the chunking of a file) is a parameter, so that
a statement about a method holds for every behaviour of the outside. Code between two waits is one step.

| area | modules |
|---|---|
| Turn lifecycle, events, crash and restore | ThreadState, ThreadRuns, ThreadSteps, ThreadHistory, ThreadKeys, ThreadRuntime, TurnRuns, TurnOutcomes |
| the normalized store and the override codec | ThreadStore, SettingsOverride |
| transcript, budgets, tool batches, the loop | Transcript, RunBudget, ToolBatch, CallEnds, AgentLoop |
| streamed responses | MessageAssembler |
| event streaming | EventStream |
| history units, selection, compaction | HistoryUnits, HistorySelection, Compaction, CompactionCoverage, ContextReduction, HistoryLaws |
| byte limits of texts and results | Utf8, Decimal, Cutting, MarkerIteration, BoundedText, JsonSize, JsonText, MetadataOrder, ResultBounds, ResultLaws |
| file readers | TextLines, LineEnds, LineReader, BoundedReader |
| patches | PatchParser, PatchGrammar, PatchSpelling, PatchHunks, PatchText, PatchCommit |
| process sessions | ProcessSessions, ProcessAnswers |
| what several of them use | Common |

UTF-8 follows sections 3 and 4 of RFC 3629, JSON string escapes section 7 of RFC 8259.

## What the proofs found

- A checkpoint can cover a tool interaction that no request ever held: when a large newest tool result is
  kept raw and a newer message is compacted, the coverage moves over the kept unit. Selections are in order
  exactly when the token counts let them be (`ChronologicalIffKeepsOrder`), a step covers a unit it did not send
  exactly when a kept unit lies under its predetermined end (`NothingSkippedIff`), reductions with ordered
  selections keep the checkpoint honest (`ContextManager.Reduce`), and `LargeToolResultIsCoveredUnsent` is a
  concrete history where one is not.
- The description of promotion says that the newest tool interaction stays raw; the code only keeps it from
  being chosen. `NewestToolIsGivenUpIff` says exactly when it is given up, `NewestToolCanBeGivenUp` is a case.
- The bounded reader decodes its page strictly at the end, and this fails exactly when the page was cut
  inside a code point (`PageDecodesIffCutAtBoundary`); `CutInsideCodePointIsPossible` is such a file.
- Editing a file rewrites every line terminator to LF: splitting and joining keeps a text exactly when LF is
  its only terminator (`RejoiningKeepsTextIffOnlyLf`, `CarriageReturnIsLost`).
- The retained-bytes count inside truncated metadata is the size before the counts are written. It is right
  exactly when the new counts are as wide together as those before (`ReturnedCountIsExactIff`), which fresh
  diagnostics rarely are (`FreshCountIsWrong`, `CountCanBeWrong`); the rounds that should repair it stop as soon as
  the budget is met.
- A request to close a Thread during a Turn is forgotten by a crash, and by nothing else
  (`CloseIsForgottenByACrash`, `CloseTakesEffectAtTheEnd`).
- A deadline that has already passed when an approval is asked for, and nothing else, leaves the approval marked
  as pending (`LeftPendingIff`, `ApprovalCanBeLeftPending`). The results of calls skipped for lack of time before they began say that the
  budget was reached (`SkippedResult`).
- A Turn cancelled before its batch begins would leave the first call requested and unanswered; the loop
  never gets there, because the flag changes only while it waits (`ToolCoordinator.Execute`, `AgentLoop.Run`).
- States this Runtime stores never are the "outcome stored, marker stale" state that its restore code also
  repairs (`NeverCoherentlyTerminal`); a state of that kind is repaired without a second outcome
  (`StaleMarkerIsOnlyCleared`).
- The repair passes behind the marker iteration never run: the iteration settles in three rounds
  (`SettlesInThreeRounds`).
- A result body can be brought within its limit exactly when the body with the least content (its own one
  byte, or the line feed that opens the marker) and empty metadata fits (`BoundResultValues`).

## Model

| member | source | states |
|---|---|---|
| ThreadRuns.StepKeepsRecord | agent/runtime/thread_runtime.py:702-1008 | Every step of a living process keeps the record sound: Turn ids distinct, the completed count equal to the number of summaries, a marker exactly in a running or waiting Thread, terminal events in one-to-one order with summaries, submissions without a summary only for the active Turn and always with a future, sequence numbers below the reservation, and a legal transcript, closed outside a Turn, given that what a Turn says fits (TurnRuns proves that it does) |
| ThreadRuns.EndedKeeps | agent/runtime/thread_runtime.py:1590-1639 | Ending a Turn adds one summary and one terminal event about this Turn, clears the marker, and keeps the record sound |
| ThreadRuns.NeverCoherentlyTerminal | agent/runtime/thread_runtime.py:512-552 | No sound state looks like an outcome stored with a stale marker |
| ThreadRuns.StaleMarkerIsOnlyCleared | agent/runtime/thread_runtime.py:454-508 | Such a state, left by an older version, is restored by clearing the marker: no summary and no event is added |
| ThreadSteps.StaleMarkerIsKnown | agent/runtime/thread_runtime.py:512-552 | Every state a Turn ends with, with its marker put back, is known as an outcome stored under a stale marker |
| ThreadSteps.StaleMarkerNeedsEvidence | agent/runtime/thread_runtime.py:512-552 | No state is taken for that without the latest summary of the marked Turn, its terminal event with the same status, and the outcome of its submission |
| ThreadRuns.RestoredInterrupted | agent/runtime/thread_runtime.py:564-618 | The Turn that died with the process becomes one failed Turn with its partial text, its open calls answered, its key marked interrupted and its terminal event numbered above every reserved number, all in one write |
| ThreadRuns.MarkerlessIsRecovered | agent/runtime/thread_runtime.py:564-618 | A running state without a marker is recovered exactly like one whose Turn has the fresh id, no key and no text |
| ThreadRuns.RestoredQuiet | agent/runtime/thread_runtime.py:442-508 | A Thread without an interrupted Turn comes back exactly as stored |
| ThreadRuns.AfterRestore | agent/runtime/thread_runtime.py:442-508 | What store, memory and readers have after a restore |
| ThreadRuns.EveryStepKeepsInv | agent/runtime/thread_runtime.py:442-1008 | Every step, crash and restore included, keeps store and memory sound, synchronized, and above every number a reader has seen |
| ThreadSteps.CreatedIs | agent/runtime/thread_runtime.py:268-440 | A Thread begins idle, with its system prompt and nothing else, and is stored so |
| ThreadSteps.EmitShowsTheEvent | agent/runtime/events.py:403-499 | An event of a Turn that has not ended, or of the Thread, is shown under the next number with the kind it was emitted with; it is stored with the whole state unless it is transient |
| ThreadSteps.ReserveReserves | agent/runtime/events.py:342-366 | Numbers are reserved by sixty-four, in the store first |
| ThreadSteps.BeginIs | agent/runtime/thread_runtime.py:905-962 | A Turn that begins says its own user text, sets its marker with its key, and frees its slot |
| ThreadSteps.FinishIs | agent/runtime/thread_runtime.py:1590-1639 | A Turn that ends leaves one summary with the status and text it ends with, one terminal event that carries it, both stored, and a Thread that is idle, or closed if that was asked for |
| ThreadSteps.LastTextSurvives | agent/runtime/thread_runtime.py:564-618 | The last text of the model, once stored, is the text of the failed Turn that a crash and a restore leave |
| ThreadSteps.WaitingIs | agent/runtime/thread_runtime.py:905-1008 | While an approval is awaited the Thread says so, and nothing else changes |
| ThreadSteps.VersionRises | agent/runtime/thread_runtime.py:1410-1441 | A settings change raises the version by one and changes nothing else |
| ThreadSteps.NewSubmissionIsDecided | agent/runtime/thread_runtime.py:712-790 | A submission under no known key is accepted exactly when no Turn runs, none holds the slot and the Thread is open; it is told closed exactly when the Thread is, or is about to be |
| ThreadHistory.RunKeepsInv | agent/runtime/thread_runtime.py:442-1008 | The invariant at every point of every run with any number of crashes; for runs whose Turns the loop drives, `TurnRuns.DrivenRunIsRun` gives the guards on what is said |
| TurnRuns.MoveIsEnabled | agent/runtime/thread_runtime.py:905-1008 | The next message of the loop always fits the transcript, and when it has nothing left to say the transcript is closed: the guards of the run model hold of a driven Turn |
| TurnRuns.DrivenRunIsRun | agent/runtime/thread_runtime.py:905-1008 | Every run whose Turns say what the loop says, one message at a time, with crashes and restores anywhere, is a run of the model |
| TurnRuns.EveryCallIsAnsweredOnce | agent/runtime/conversation.py:31-89 | The stored transcript is legal at every point, and whenever the store shows no active Turn each call of the whole history has exactly one result, at its own place, across all Turns, batch ends, crashes and restores |
| TurnOutcomes.TurnIsStoredAsItEnded | agent/runtime/thread_runtime.py:1122-1263 | A Turn that runs to its end without a crash, whatever else happens meanwhile, and finishes with the outcome of its loop: stored are the status that goes with how the loop ended, the last text of the model as final text, and behind the earlier transcript its user text and exactly what the loop said |
| TurnOutcomes.FinalTextIsTheLastWord | agent/runtime/thread_runtime.py:1158-1262 | However a Turn ends, its final text is the last thing the model said in it |
| TurnOutcomes.CompletedTurnAnswers | agent/runtime/thread_runtime.py:1158-1183 | A completed Turn has a final text that is not empty, and its transcript ends with it |
| ThreadHistory.RunEvolves | agent/runtime/thread_runtime.py:620-679 | Nothing stored is ever taken back: summaries, events and replay values only grow, and a started Turn is still active or has its summary |
| ThreadHistory.EveryStartedTurnEndsOnce | agent/runtime/thread_runtime.py:905-1008 | A Turn ever stored as started has exactly one summary and exactly one terminal event carrying it, as soon as the store shows no active Turn, across any crashes and restores |
| ThreadHistory.SeenNumbersOnlyGrow | agent/runtime/events.py:342-379 | Every number a reader saw is smaller than every number seen later in any process, transient events included |
| ThreadHistory.StoredKeyDecides | agent/runtime/thread_runtime.py:712-736 | A key whose stored submission is finished is answered from it for ever: conflict, refused as interrupted, or replayed |
| ThreadHistory.AnswersForAKeyNeverChange | agent/runtime/thread_runtime.py:712-736 | A replay or an interruption answered once is answered the same for ever after |
| ThreadHistory.SubmitIsDecided | agent/runtime/thread_runtime.py:712-736 | The assertion that a pending key has a future cannot fail, and outside a Turn every known key has its summary |
| ThreadHistory.InterruptedKeyNeverRunsAgain | agent/runtime/thread_runtime.py:599-605 | A key in flight when the process died is refused, or conflicts, in every later process |
| ThreadKeys.SubmittedIsBegun | agent/runtime/thread_runtime.py:905-962 | From the reservation of the slot to the begin, whatever happens in between: the stored submission is the one that was made, under its key and Turn id, and the user text said is its text |
| ThreadKeys.RunningKeyIsJoined | agent/runtime/thread_runtime.py:712-736 | While the Turn of a submission runs, the same submission joins it and any other under the key conflicts |
| ThreadKeys.FinishedKeyReplays | agent/runtime/thread_runtime.py:712-736 | Once it has finished, the same submission replays exactly its id, status and text in this process and every later one, and any other conflicts |
| ThreadKeys.CrashedKeyIsRefused | agent/runtime/thread_runtime.py:712-736 | After a crash during the Turn the same submission is refused by every later process if it was stored, and is as good as new if it was not |
| ThreadKeys.KnownKeyIsAnswered | agent/runtime/thread_runtime.py:712-736 | As long as the key is known, through any steps, crashes and restores, the submission that took it is joined, refused or replayed, and any other conflicts |
| ThreadHistory.RestoringTwiceAddsNothing | agent/runtime/thread_runtime.py:442-508 | Crashing after a restore and restoring again changes neither the store nor what readers saw |
| ThreadHistory.CloseTakesEffectAtTheEnd | agent/runtime/thread_runtime.py:1443-1459 | Until a crash, an accepted close is never forgotten, and at every later point without an active Turn the Thread is closed in memory and in the store |
| ThreadHistory.CloseIsForgottenByACrash | agent/runtime/thread_runtime.py:1443-1459 | A crash before that forgets the request: the Thread comes back idle |
| ThreadRuntime.ThreadRecord.Restore | agent/runtime/thread_runtime.py:442-508 | Loading and repairing the fields is the restore step of the run model, for sound states, states with a stale marker and running states without one |
| ThreadRuntime.ThreadRecord.RecoverActiveRecord | agent/runtime/thread_runtime.py:564-618 | The fields after recovery are those of the recovered record, stored whole, with one terminal event shown, under a fresh id when no marker names the Turn |
| ThreadRuntime.ThreadRecord.NextSequence | agent/runtime/events.py:342-366 | Numbers rise by one; a reservation is stored before a number beyond the watermark is used, except for a terminal event |
| ThreadRuntime.ThreadRecord.Append | agent/runtime/events.py:368-379 | The ring holds the newest events, a durable event is stored with the whole state, a transient one never |
| ThreadRuntime.ThreadRecord.Emit | agent/runtime/events.py:472-499 | Behind its terminal event a Turn's channel is silent; otherwise exactly one event is shown, and what is stored depends on kind and reservation |
| ThreadRuntime.ThreadRecord.EmitOrdinary | agent/runtime/events.py:403-423 | An ordinary event is at most a reservation step and an emission step of the run model |
| ThreadRuntime.EmittedKeepsInv | agent/runtime/events.py:472-499 | Emitting, with the reservation it may need, keeps the invariant of runs |
| ThreadRuntime.ThreadRecord.StartTurn | agent/runtime/thread_runtime.py:712-790 | The checks before the first wait decide as the submission rules say, and an accepted Turn takes the slot |
| ThreadRuntime.ThreadRecord.BeginTurn | agent/runtime/thread_runtime.py:896-962 | After the preflight the Turn begins unless it is rejected or the Thread was closed meanwhile, in which case this is announced and the slot freed; either is a step of the run model, and what the begin step stores is in ThreadSteps and ThreadKeys |
| ThreadRuntime.ThreadRecord.FinishTurn | agent/runtime/thread_runtime.py:1590-1639 | Settling, the terminal event and its one write are the finish step of the run model |
| ThreadRuntime.ThreadRecord.CloseThread | agent/runtime/thread_runtime.py:1443-1459 | An idle Thread is closed and stored at once; during a Turn the request is announced and remembered, and the Turn is to be cancelled |
| ThreadRuntime.ThreadRecord.UpdateSettings | agent/runtime/thread_runtime.py:1410-1441 | A change is taken only by an open Thread and only against the current version |
| ThreadStore.SavedStandsFor | agent/runtime/thread_store.py:325-405 | A transition that names exactly the events it appends leaves the rows standing for the new state |
| ThreadStore.OrderIsUnique | agent/runtime/thread_store.py:416-446 | Event rows with distinct numbers have only one order by number |
| ThreadStore.LocalThreadStore.SaveState | agent/runtime/thread_store.py:325-405 | One transaction replaces the state row, adds the event rows, makes the key rows those of the state, and touches no other Thread |
| ThreadStore.LocalThreadStore.GetThread | agent/runtime/thread_store.py:306-312 | Rows standing for a sound state are read back as exactly that state; no rows are a missing Thread |
| ThreadStore.RowsFollowTheRun | agent/runtime/thread_store.py:317-446 | At every point of every run the normalized rows, fed with the events that each step names, stand for exactly the state the Runtime stored last |
| ThreadStore.NamedAreAppended | agent/runtime/thread_runtime.py:620-679 | The one durable event a write names as new, or none, is exactly what its state has beyond the stored one |
| ThreadStore.UnwrittenStays | agent/runtime/thread_runtime.py:620-679 | A step that writes nothing leaves the stored state as it is |
| ThreadStore.SaveToBoth | agent/runtime/thread_store.py:169-405 | The same transitions leave in one store the rows they build up and in the other the last state, and no other Thread changes |
| ThreadStore.StoresAgree | agent/runtime/thread_store.py:153-446 | After any number of steps of any run both stores give back the same state, the one stored last |
| SettingsOverride.OverrideRoundTrips | agent/runtime/thread_store.py:666-723 | Every valid override is read back as written, unset fields and explicit nulls kept apart |
| SettingsOverride.EncodedFields | agent/runtime/thread_store.py:666-700 | A field is written exactly when it is set |
| SettingsOverride.LimitsAreRead | agent/runtime/thread_store.py:666-773 | Limits are written under their own names, and read exactly when they are whole and within their ranges |
| SettingsOverride.ThinkingIsRead | agent/runtime/thread_store.py:666-773 | Thinking is read exactly as its fields say, an absent one like null, and only if it is consistent |
| SettingsOverride.ReadFields | agent/runtime/thread_store.py:702-773 | A readable override was read field by field: each set one from its own name with a value of its own kind, an explicit null where there is none, no name for an unset one |
| SettingsOverride.UnknownNameIsRefused | agent/runtime/thread_store.py:702-773 | A name that no field has makes the override unreadable |
| SettingsOverride.OptionalRoundTrips | agent/runtime/thread_store.py:756-773 | No override and an override that sets nothing stay different |
| Transcript.ClosedMeansEveryCallAnswered | agent/runtime/conversation.py:31-43 | In a closed transcript every call has its result in call order right behind its message, before anything else is said |
| Transcript.EveryAnswerHasItsCall | agent/runtime/conversation.py:39-43 | Every result answers a call of an earlier assistant message, from its own place |
| Transcript.ClosedMeansExactlyOneAnswer | agent/runtime/conversation.py:31-43 | With unique call ids each call has exactly one result |
| Transcript.UnansweredAreWaiting | agent/runtime/conversation.py:53-73 | The ids the recovery collects over the whole history are exactly the waiting calls |
| Transcript.RecoveryCloses | agent/runtime/conversation.py:53-89 | Recovery closes every legal transcript a crash can leave, only by appending results that say the Runtime was restarted, and changes a closed one not at all |
| Transcript.Conversation.FromMessages | agent/runtime/conversation.py:22-29 | A stored history is taken exactly when it begins with a system message |
| Transcript.Conversation.AppendAssistant | agent/runtime/conversation.py:34-37 | Legal exactly when nothing waits; then exactly its calls wait |
| Transcript.Conversation.AppendToolResult | agent/runtime/conversation.py:39-43 | Legal exactly when it answers the next waiting call |
| Transcript.Conversation.AppendInterruptedToolResults | agent/runtime/conversation.py:53-89 | Answers exactly the waiting calls, as interrupted, and closes the transcript |
| RunBudget.PausesAreLeftOut | agent/runtime/run_controller.py:169-189 | The counted seconds are the time since the start less the total of all pauses, an open one included |
| RunBudget.RepeatingIffRunOfThree | agent/runtime/run_controller.py:82-98 | Three identical failures at the end are the same as a trailing run of at least three |
| RunBudget.TrailingRunIsARun | agent/runtime/run_controller.py:82-98 | The counted run consists of equal failures and cannot be extended backwards |
| RunBudget.ThreeFailuresAreOne | agent/runtime/run_controller.py:82-98 | Three results recorded in a row end the Turn exactly when all failed with one name, one normal form of the arguments and one error |
| RunBudget.LiveTurnGoesOn | agent/runtime/run_controller.py:63-104 | A live Turn with time left may ask the model exactly while iterations are left, and call a tool exactly while calls are left |
| RunBudget.StoppedTurnStops | agent/runtime/run_controller.py:63-104 | A cancel comes before a passed deadline, and both before a budget |
| RunBudget.RunController.RemainingSeconds | agent/runtime/run_controller.py:185-189 | What is left of the limit after the unpaused seconds, never below zero |
| RunBudget.RunController.BeginTool | agent/runtime/run_controller.py:69-73 | Refused by cancellation first, then deadline, then budget; counted only when it begins |
| RunBudget.RunController.RecordToolResult | agent/runtime/run_controller.py:82-98 | Ends the Turn exactly when the result completes a third identical failure in a row, calls compared by name, normalized arguments and error |
| RunBudget.RunController.PauseDeadline | agent/runtime/run_controller.py:169-176 | The clock stops only for a live Turn that is not paused; while it is, the remaining seconds stay what they were |
| RunBudget.RunController.ResumeDeadline | agent/runtime/run_controller.py:178-183 | The pause ends with the remaining seconds it began with, and is added to the paused time |
| ToolBatch.FinishedInOrder | agent/runtime/tool_coordinator.py:97-187 | Events in protocol order finish the calls in call order with one result each |
| ToolBatch.BatchClosesTranscript | agent/runtime/tool_coordinator.py:97-187 | A batch that ended in protocol order answers all its calls and closes the transcript |
| ToolBatch.ToolStartsIff | agent/runtime/tool_coordinator.py:200-257 | A tool is started exactly when its call gets past budget, policy, conflict and approval |
| CallEnds.NotBegunEndsAs | agent/runtime/tool_coordinator.py:97-187 | A call of a cancelled Turn, after the deadline or over the budget ends before anything is said of it, as exactly that, and counts nothing |
| CallEnds.UndecidedEndsAs | agent/runtime/tool_coordinator.py:200-313 | A call that begins is counted; a failing Policy, an approval asked for too late, a timeout and an interruption end it as what they are, without a tool, and the pause does not count as time |
| CallEnds.UnfinishedEndsAs | agent/runtime/tool_coordinator.py:200-257 | A permitted call without a conflict starts its tool if the Turn is still live, and a deadline, an abort, a crash or failing bookkeeping end it as what they are |
| CallEnds.RecordedEndsAs | agent/runtime/tool_coordinator.py:97-187 | A denied, refused, conflicting or returned call is recorded with its own failure, and is followed by the next one unless it is the third of its kind in a row, the Turn was cancelled meanwhile, or its time is over, in this order |
| ToolBatch.InternalErrorIff | agent/runtime/tool_coordinator.py:97-187 | A call ends in an internal error exactly when the policy fails, the started tool crashes, or the bookkeeping behind it does |
| ToolBatch.ApprovalTimeoutIff | agent/runtime/tool_coordinator.py:259-313 | A call ends by an approval timeout exactly when approval was asked for in time and no reply came |
| ToolBatch.LeftPendingIff | agent/runtime/tool_coordinator.py:259-275 | An approval stays marked as pending exactly when the deadline has passed as it is asked for |
| ToolBatch.ApprovalCanBeLeftPending | agent/runtime/tool_coordinator.py:259-275 | A deadline of one second and an approval asked for after one and a half leave it so |
| ToolBatch.BatchEndsWithFirst | agent/runtime/tool_coordinator.py:97-187 | A batch ends with the exit, the moment and the books of its first call that is not carried through, or completes |
| ToolBatch.CompletedBatchRanAll | agent/runtime/tool_coordinator.py:97-257 | A batch that completes has started exactly the permitted calls without a conflict |
| ToolBatch.OnlyPermittedRan | agent/runtime/tool_coordinator.py:97-257 | Whatever ends the batch, tools were started only for permitted calls without a conflict, each once, in order, none behind the last call |
| ToolBatch.ToolCoordinator.RequestApproval | agent/runtime/tool_coordinator.py:259-313 | Every way the approval can end, with the clock running again, and a passed deadline leaving the approval marked |
| ToolBatch.ToolCoordinator.ExecuteOne | agent/runtime/tool_coordinator.py:200-257 | The call goes the course that its script and the books of the controller give: its exit, whether the tool is started, what stays pending, and the books after it; a completed call is answered by the tool's own result, its conflict, or the denial, with the events that go before it |
| ToolBatch.ToolCoordinator.AppendSkipped | agent/runtime/tool_coordinator.py:358-376 | Every remaining call is requested if it was not, and finished with the one result, in order |
| ToolBatch.ToolCoordinator.AbortBatch | agent/runtime/tool_coordinator.py:378-392 | The open call and all behind it are closed with the results of an abnormal end |
| ToolBatch.ToolCoordinator.Execute | agent/runtime/tool_coordinator.py:97-187 | Exit, place and moment of the end, the tools started and the books afterwards are those that script and books decide; every call gets exactly one result in call order, and each result is given by script and exit alone, with its content and error code |
| ToolBatch.EveryCallIsAnswered | agent/runtime/tool_coordinator.py:97-392 | For every call of a batch, the content and the error code of its result: a returned result itself, a conflict, a denial, and for each way the batch can end what the open call and the calls behind it get |
| ToolBatch.BatchIsAnswered | agent/runtime/tool_coordinator.py:97-187 | The events of a batch carry exactly these results, one for each call |
| AgentLoop.Run | agent/runtime/loop.py:30-109 | How the Turn ends, with which final text, what was said and which tools were started is decided by the books and the rounds, and is what the fields hold; each round said is the model's response and the results its script and exit give |
| AgentLoop.TurnEndsWithFirst | agent/runtime/loop.py:30-109 | A Turn ends as the first round that no other one follows |
| AgentLoop.TurnTalks | agent/runtime/loop.py:30-109 | What a Turn says is round by round the response of the model and behind it the results of its batch, as the scripts and the exit give them |
| AgentLoop.RoundEndsAs | agent/runtime/loop.py:46-109 | For every round, how it ends: by cancel, time or iterations before it asks, as a wait that does not go on, by the limit for a cut or an empty answer, successfully, or with its batch, and what it says |
| AgentLoop.PlainAnswerSucceeds | agent/runtime/loop.py:30-109 | A live Turn with time and iterations left that gets an uncut text without calls succeeds with that text |
| AgentLoop.SuccessHasTheLastWord | agent/runtime/loop.py:92-107 | A Turn succeeds only with a text that is not empty, said last and without calls |
| AgentLoop.TurnCloses | agent/runtime/loop.py:30-109 | Whatever ends the Turn, what was said leaves a closed transcript closed |
| AgentLoop.SpeaksOncePerIteration | agent/runtime/loop.py:30-109 | The model speaks at most once for every iteration that was counted |
| AgentLoop.RunTools | agent/runtime/loop.py:95-109 | The batch answers all calls of the response, and its exit, the tools started and the books are those of the batch |
| MessageAssembler.CompatibleIsAcceptable | agent/runtime/message_assembler.py:59-86 | A stream stays acceptable exactly when the next delta contradicts nothing before it |
| MessageAssembler.Assembler.Add | agent/runtime/message_assembler.py:59-86 | A delta is refused exactly when the stream would no longer be acceptable |
| MessageAssembler.Assembler.AddToolCall | agent/runtime/message_assembler.py:137-166 | Ids, names and arguments are merged per index; contradicting ids, reused ids and renamed calls are refused |
| MessageAssembler.Assembler.ProjectedIsProjection | agent/runtime/message_assembler.py:36-57 | The fields hold exactly the joined texts and calls of the stream, however it was cut and interleaved |
| MessageAssembler.Assembler.Assemble | agent/runtime/message_assembler.py:88-128 | Succeeds exactly for an ended stream whose calls all have an id and a name, with the calls in index order |
| MessageAssembler.OneProjection | agent/runtime/message_assembler.py:59-125 | An acceptable ended stream has only one projection |
| MessageAssembler.ProjectionDecides | agent/runtime/message_assembler.py:88-128 | Equal projections give equal responses |
| MessageAssembler.CompleteIff | agent/runtime/message_assembler.py:88-128 | The calls of a stream are complete exactly when its deltas give every mentioned index an id and a name |
| MessageAssembler.EachCallHasItsPlace | agent/runtime/message_assembler.py:88-128 | Every call stands behind the calls of all smaller indexes, and none is missing |
| MessageAssembler.AcceptedIdsAreDistinct | agent/runtime/message_assembler.py:137-166 | The calls of an accepted message have pairwise distinct ids |
| EventStream.EventRing.Read | agent/runtime/events.py:425-446 | What follows a retained cursor is the log behind it; a cursor that left the ring is reported expired; no cursor gives all that is retained |
| EventStream.NewestIs | agent/runtime/events.py:368-446 | As many events as may be kept, and the last ones in their order |
| EventStream.PlaceIsTheLastFrame | agent/host/event_stream.py:79-136 | A reader stands at the event of the frame it was sent last |
| EventStream.FollowedStays | agent/host/event_stream.py:79-136 | Later events do not change what frames sent earlier meant |
| EventStream.EventFramesAreTheLog | agent/host/event_stream.py:103-111 | Event frames behind a place are the consecutive log, with no gap and no duplicate |
| EventStream.PlacesNeverGoBack | agent/host/event_stream.py:79-136 | Over snapshots too, the place never goes back and no event is sent twice |
| EventStream.EventStreamAdapter.Poll | agent/host/event_stream.py:83-111 | An expired cursor is answered by one snapshot of the newest state; otherwise exactly the log behind the cursor is due |
| EventStream.EventStreamAdapter.CheckHost | agent/host/event_stream.py:113-131 | A new host failure is reported once, by a snapshot of the newest state |
| EventStream.EventStreamAdapter.Round | agent/host/event_stream.py:82-131 | One pass sends everything that was there at its poll, whatever arrives meanwhile |
| EventStream.EventStreamAdapter.Stream | agent/host/event_stream.py:79-146 | For any number of rounds and any arrivals, also while a frame is sent, what was sent follows the log and reaches everything that was there at the last poll; after a round without arrivals that is the whole log |
| HistoryUnits.ParseTiles | agent/runtime/history/units.py:155-222 | The units follow each other without gap or overlap over the whole history |
| HistoryLaws.UnitIs | agent/runtime/history/units.py:155-222 | A unit is one message, or an assistant message and everything up to the first position at which all its calls are answered; it is open exactly while a call has no result, and then reaches to the end; what counts as tool and system unit |
| HistoryUnits.CompletePrefixIsStable | agent/runtime/history/units.py:155-222 | Appending to the transcript does not change the complete units at its beginning |
| HistoryUnits.CompleteUnitIsAtomic | agent/runtime/history/units.py:155-222 | A complete unit is one complete unit by itself, whatever surrounds it |
| HistoryUnits.AtomicPartsParseBack | agent/runtime/history/units.py:155-222 | Complete units laid end to end parse back into themselves |
| HistorySelection.Select | agent/runtime/history/selection.py:197-246 | The kept units are the forced ones and everything back to the unit that meets the target, which is kept whole |
| HistorySelection.SelectionIsUnique | agent/runtime/history/selection.py:197-246 | Only one selection is what the walk promises |
| HistoryLaws.SelectionKeepsExactly | agent/runtime/history/selection.py:197-246 | Kept are exactly the system messages and, of what is not covered, the open units, the newest tool interaction and everything from the cut on |
| HistoryLaws.SelectionMeetsTarget | agent/runtime/history/selection.py:197-246 | The walk stops only once what it keeps meets the target, and took each unit while what was kept without it did not |
| HistorySelection.ChronologicalIffKeepsOrder | agent/runtime/history/selection.py:197-246 | A selection is chronological exactly when, with an uncovered tool interaction as the newest, the units kept up to any open unit behind it count fewer tokens than the target: known before the selection |
| HistorySelection.PromotionKeepsChronology | agent/runtime/context_reduction.py:13-100 | Promotion keeps a chronological selection chronological and gives something up whenever anything is eligible |
| HistorySelection.PromotionGivesUpExactly | agent/runtime/context_reduction.py:13-100 | Promotion gives up exactly the complete kept units up to the heaviest that may be chosen, of equals the newest; every newer unit, every open one and every system message stays |
| HistorySelection.PromotionGivesUpNothing | agent/runtime/context_reduction.py:13-100 | It gives up nothing when nothing may be chosen or nothing else is kept |
| HistorySelection.NewestToolIsGivenUpIff | agent/runtime/context_reduction.py:34-54 | The newest tool interaction is given up exactly when a newer unit is chosen |
| HistorySelection.NewestToolCanBeGivenUp | agent/runtime/context_reduction.py:34-54 | A tool interaction and a newer message, both kept: the tool interaction goes with the message |
| Compaction.BoundedSource | agent/runtime/history/compaction.py:476-515 | The longest chronological prefix of whole units that the budget allows, and failure exactly when the first unit alone is too large |
| Compaction.UnitsMatchingSource | agent/runtime/history/compaction.py:592-628 | The leading complete units that make up exactly the exposed source; none only if no such units exist |
| Compaction.LLMHistoryCompactor.Compact | agent/runtime/history/compaction.py:517-571 | On success the exposed source is exactly the bounded prefix of whole units; failure only without a usable reply or a fitting first unit |
| Compaction.SameShapeSameUnits | agent/runtime/history/pruning.py:82-167 | Pruning that shortens results in place leaves the units where they were |
| Compaction.SelectionMayCompact | agent/runtime/history/selection.py:197-246 | Neither a selection nor its promotion ever offers an open unit or a system message to compaction |
| Compaction.CoverageEnd | agent/runtime/history/compaction.py:717-727 | The hint can only hold the coverage back, and only to the end of a unit that was sent; exactly where is in HistoryLaws |
| HistoryLaws.CoverageEndsAt | agent/runtime/history/compaction.py:717-727 | The coverage ends where the hint says if a unit that was sent ends there, and otherwise with the last unit sent |
| HistoryLaws.HintIs | agent/runtime/history/selection.py:247-285 | The hint is the end of the newest unit that is neither kept raw nor covered |
| Compaction.RollingCompact | agent/runtime/history/compaction.py:645-781 | A step does nothing, fails and keeps the old checkpoint, or moves the coverage strictly forward to the end of a complete unit of what was sent; the source the model got is exactly the messages of the units counted as sent |
| CompactionCoverage.NothingSkippedIff | agent/runtime/history/compaction.py:645-781 | A step covers only what it sent exactly when no unit kept raw lies under its end, which the kept and available units, the hint, the sizes and the budget determine before it |
| CompactionCoverage.OutcomeIsUnique | agent/runtime/history/compaction.py:645-781 | What a step sends and how far it then covers is determined before it |
| CompactionCoverage.ChronologicalSkipsNothing | agent/runtime/history/compaction.py:645-781 | A chronological selection never covers an unsent unit, whatever the budget cuts off and the hint holds back |
| CompactionCoverage.CheckpointOutlivesAppends | agent/runtime/history/compaction.py:275-300 | A checkpoint stays valid when the transcript grows |
| HistoryLaws.CheckpointFitsIff | agent/runtime/history/compaction.py:275-300 | A valid checkpoint over complete units is used for exactly the histories that begin with what it covers |
| HistoryLaws.SelectorCoverageIs | agent/runtime/history/selection.py:165-181 | The selector goes by the checkpoint exactly when the pruned copy still begins with what it covers |
| CompactionCoverage.GrowingKeepsHonest | agent/runtime/history/compaction.py:275-300 | What was true of the covered units stays true when the transcript grows |
| ContextReduction.MoreCoverage | agent/runtime/context_manager.py:357-375 | What is chronological, or may be compacted, for the selector's smaller coverage is so for the checkpoint's |
| ContextReduction.SelectionHintIsNoLimit | agent/runtime/context_manager.py:357-440 | The hint that a selection or its promotion gives never holds the coverage back behind what was sent |
| ContextReduction.ChoiceIsUnique | agent/runtime/context_manager.py:357-375 | What is kept raw in a reduction is determined before it |
| ContextReduction.ContextManager.Reduce | agent/runtime/context_manager.py:256-491 | Pruning, selecting, promoting and compacting ends as the sizes, the budget and the reply decide, leaves the checkpoint alone or moves it strictly forward to the end of the last complete unit sent, keeps it valid, and keeps everything under it sent when the selection keeps the order |
| HistoryLaws.HonestCovers | agent/runtime/context_manager.py:256-491 | Every message under an honest checkpoint is a system message or belongs to a unit that was sent to the summarizer |
| ContextReduction.ContextManager.Say | agent/runtime/context_manager.py:256-275 | The checkpoint stays valid and honest when the transcript grows |
| CompactionCoverage.LegalHasOnlyLastOpen | agent/runtime/history/units.py:155-222 | In a legal transcript with distinct call ids only the last unit can be open |
| CompactionCoverage.LargeToolResultIsCoveredUnsent | agent/runtime/history/selection.py:197-246 | A concrete history and selection where a step covers a unit that no request held |
| Utf8.PrefixDecodesIffBoundary | agent/tools/result_bounds.py:79-90 | A head of encoded text decodes strictly exactly when it ends between two code points |
| Utf8.SuffixDecodesIffBoundary | agent/tools/result_bounds.py:92-103 | The same for a tail |
| Utf8.DecodeThenEncode | agent/tools/result_bounds.py:79-103 | The strict decoder accepts only encodings, and encoding undoes it |
| Utf8.EncodingIsTheTable | agent/tools/result_bounds.py:79-103 | Encoding is the table of RFC 3629, bit field by bit field |
| Cutting.PrefixAtMost | agent/tools/result_bounds.py:79-90 | The longest decodable head within the limit |
| Cutting.SuffixAtMost | agent/tools/result_bounds.py:92-103 | The longest decodable tail within the limit |
| Cutting.CutsLoseAtMostThree | agent/tools/result_bounds.py:79-103 | Keeping code points whole costs at most three bytes at either cut |
| MarkerIteration.SettlesInThreeRounds | agent/tools/result_bounds.py:126-143 | The marker whose length depends on its own count settles in three rounds, for every text and limit |
| MarkerIteration.SettledIsGreatest | agent/tools/result_bounds.py:126-143 | The settled count is the largest truthful one |
| BoundedText.MarkerIsInjective | agent/tools/result_bounds.py:105-111 | Markers are equal only if their counts are |
| BoundedText.MarkerReads | agent/tools/result_bounds.py:105-111 | Both markers, letter by letter, around the two decimal counts |
| Decimal.RenderIsDecimal | agent/tools/result_bounds.py:105-111 | The digits of a count stand for it, without a leading zero |
| BoundedText.SettledCountIsGreatestTruthful | agent/tools/result_bounds.py:126-143 | For every text and limit the count shown is the number of bytes left out |
| BoundedText.BoundText | agent/tools/result_bounds.py:114-207 | A text within the limit is unchanged; otherwise the result is within the limit, decodes, and is the longest source head and the longest disjoint source tail that decode within their halves of the room around the marker with the true count, or the part of the marker that fits |
| BoundedText.KeptPartsEndAtCodePoints | agent/tools/result_bounds.py:114-207 | What is kept on both sides ends at code points of the source |
| BoundedText.BoundingIsIdempotent | agent/tools/result_bounds.py:114-207 | Bounding a bounded text again changes nothing |
| ResultBounds.BoundMetadataText | agent/tools/result_bounds.py:271-305 | A nested text is bounded like a result text, around its own marker |
| ResultBounds.BoundMetadataValue | agent/tools/result_bounds.py:323-371 | Values that fit are kept; texts, dictionaries in the order of objective names and lists become what the bounding relation says, at every depth |
| MetadataOrder.OrderedIsStableSort | agent/tools/result_bounds.py:313-320 | The fields are considered sorted by rank and name, none lost, those of one name in their own order |
| ResultBounds.BoundedValueFits | agent/tools/result_bounds.py:323-371 | A bounded container serializes within its budget or is empty, a bounded text stays within it |
| ResultBounds.AddedIsMaximal | agent/tools/result_bounds.py:412-420 | No field left out behind the diagnostics would still fit, and none is invented or replaced |
| ResultBounds.ReturnedCountIsExactIff | agent/tools/result_bounds.py:395-464 | Returned metadata state their own size exactly when the new counts are together as wide as the ones the last round found, plus what a removal behind it freed; a first round that fits is the last, and found 0 and the original size |
| ResultBounds.CountCanBeWrong | agent/tools/result_bounds.py:422-431 | A text of six thousand letters under the name of the original size and a budget of two thousand bytes: the returned count is wrong |
| ResultBounds.FitMetadata | agent/tools/result_bounds.py:395-464 | Metadata whose serialization fits are unchanged; otherwise the result is the described one, with a serialization within the budget, or empty |
| ResultBounds.BodySizeIsSum | agent/tools/result_bounds.py:251-261 | The size of the body is a fixed part, that of the escaped content and that of the metadata |
| JsonText.SizeCountsBytes | agent/tools/result_bounds.py:210-248 | The size of a JSON value is the number of bytes of its serialization |
| JsonText.QuotedReadsBack | agent/tools/result_bounds.py:210-248 | A serialized text holds no bare quotation mark or control byte, every backslash opens an escape, and reading the escapes gives the text's bytes back |
| JsonText.ArrayText | agent/tools/result_bounds.py:210-248 | A serialized list: brackets around the serialized items, a comma and a blank between them |
| JsonText.ObjectText | agent/tools/result_bounds.py:210-248 | A serialized object: braces around its keys and values, a colon and a blank within a field, a comma and a blank between fields |
| JsonText.SizeIgnoresOrder | agent/tools/result_bounds.py:210-248 | Sorting the keys of an object does not change its size |
| ResultLaws.BodyIsSerialized | agent/tools/result_bounds.py:251-261 | The body byte by byte: its keys in order, content and metadata serialized, null or the code of the error, true exactly without one |
| ResultBounds.BodySizeCountsBytes | agent/tools/result_bounds.py:251-261 | The size that is checked is the number of bytes of that body |
| ResultLaws.BudgetsAre | agent/tools/result_bounds.py:407-534 | What the empty body and a reserve of 768 bytes leave to the content and to the metadata, the room for diagnostics, and the step to the next budget, counted in serialized bytes |
| ResultLaws.OneMoreRound | agent/tools/result_bounds.py:513-534 | A round that failed is followed by the next budget, until the twelfth round or one that changes nothing; from there, or from the limit if that is less, every smaller budget is tried |
| ResultLaws.SearchIsShort | agent/tools/result_bounds.py:489-534 | The search has at most twelve rounds, and its budget never grows |
| ResultLaws.FieldStaysIff | agent/tools/result_bounds.py:338-352 | A bounded field stays exactly when the serialized object with it is within the budget |
| ResultLaws.NoteIsAddedIff | agent/tools/result_bounds.py:353-369 | A list that lost items ends with the note about them exactly when the serialized list with it is within the budget |
| ResultLaws.UpdateWins | agent/tools/result_bounds.py:489-505 | What is said about the content stands over fields of the tool with the same names, and the others stay |
| ResultLaws.DepthAndBudget | agent/tools/result_bounds.py:323-337 | Behind the eighth level a value is its cut text, without a budget it is null, and a value whose bytes are within its budget is left alone |
| ResultLaws.RemovedIsLastFree | agent/tools/result_bounds.py:424-448 | The field that goes in a round of counting is the last that is none of the five diagnostics that stay |
| ResultLaws.SmallIs | agent/tools/result_bounds.py:450-463 | Of the compact diagnostics those stay whose own serialization is within the budget |
| ResultLaws.DescribedIs | agent/tools/result_bounds.py:410-464 | Cut metadata are counted in at most four rounds; the compact diagnostics stand for what is then too large in bytes, and nothing for what is still too large |
| ResultBounds.NothingIsSmaller | agent/tools/result_bounds.py:467-534 | No bounded form of a content takes fewer serialized bytes than the least one |
| ResultBounds.BoundResultValues | agent/tools/result_bounds.py:467-534 | A body whose bytes fit is unchanged; otherwise the first attempt of the search whose body fits is returned, the bytes of the returned body are within the limit exactly when those of the least content with empty metadata are, and the last resort is reached only otherwise |
| ResultBounds.ReducingIsIdempotent | agent/tools/result_bounds.py:537-552 | Reducing a reduced result again changes nothing, whether or not it fits |
| TextLines.ScanIsSplitLines | agent/tools/filesystem.py:20-33 | Scanning character by character is the pure line split, CR LF counted once |
| LineEnds.SplitLinesIsTheSplit | agent/tools/filesystem.py:20-33 | The split is the one division of the text into lines that hold none of the ten line ends, each but the last ended by one of them, CR LF taken as one |
| LineEnds.EndedLineIsFirst | agent/tools/filesystem.py:20-33 | A line without a line end, any line end, and any rest: the split is that line and the split of the rest |
| LineEnds.PlainTextIsOneLine | agent/tools/filesystem.py:20-33 | A text without any of the ten is one line |
| LineReader.PageIsSlice | agent/tools/filesystem.py:175-261 | The kept page is the slice of the lines that offset and limit name |
| LineReader.SliceHolds | agent/tools/filesystem.py:175-261 | Every line whose number is named stands in the slice at that number less the offset, and the slice is no longer than these lines |
| LineReader.PageScanner.Consume | agent/tools/filesystem.py:190-227 | A piece moves the fields exactly as its characters one by one, whatever it holds and wherever it was cut |
| LineReader.ReadTextPage | agent/tools/filesystem.py:175-261 | For every cutting into pieces, page and total are the named slice and the number of the lines that divide the whole text at the ten line ends |
| BoundedReader.BoundedScanner.Consume | agent/tools/filesystem.py:354-394 | The bounded capture agrees with the line up to three bytes below the limit although it may skip a wide character and keep narrower ones |
| BoundedReader.ReadTextPageBounded | agent/tools/filesystem.py:263-434 | For every cutting the page is within the limit and is the whole numbered listing of the lines that divide the text at the ten line ends, or a head of it followed by the marker; the total is that of the unbounded reader |
| BoundedReader.ListingIsRows | agent/tools/filesystem.py:344-419 | The listing is the lines of the named slice, each behind its own number |
| BoundedReader.KeptIsAsMuchAsFits | agent/tools/filesystem.py:344-419 | The head that is kept fills the room left by the marker, or ends with a row behind which not even the next number fits |
| BoundedReader.MarkerIs | agent/tools/filesystem.py:263-434 | The marker letter by letter, for every limit |
| BoundedReader.PageDecodesIffCutAtBoundary | agent/tools/filesystem.py:415-419 | The final strict decoding succeeds exactly when the cut falls between code points |
| BoundedReader.CutInsideCodePointIsPossible | agent/tools/filesystem.py:344-419 | Two accented letters under a limit of nineteen bytes make it fail |
| PatchHunks.Locate | agent/tools/apply_patch.py:262-296 | A numbered hunk is placed at its shifted line, another at its only match; no place is reported only if there is none |
| PatchHunks.ApplyInOrder | agent/tools/apply_patch.py:262-292 | The loop succeeds exactly when the hunks edit the lines one after the other, with that result: each hunk's context and removed lines stand at its place before, its context and added lines after, and everything around them is unchanged |
| PatchHunks.AppliesToIsEditing | agent/tools/apply_patch.py:32-42 | Applying hunks is editing line by line: where each context, removed and added line stands in the old lines and in the new ones, and what stays |
| PatchHunks.ResultIsUnique | agent/tools/apply_patch.py:262-292 | Hunks have at most one result |
| PatchHunks.NumberedHunksAreSimultaneous | agent/tools/apply_patch.py:262-292 | Ascending numbered hunks applied with the running offset succeed exactly when each matches the original, and then replace all their ranges at once |
| PatchHunks.ZeroStartsLikeOne | agent/tools/apply_patch.py:270-273 | A first hunk numbered zero is applied as if numbered one |
| PatchHunks.ReversedHunksRestore | agent/tools/apply_patch.py:262-292 | The reversed hunks apply to the patched lines and give the original back |
| PatchText.UpdateText | agent/tools/apply_patch.py:262-292 | The new text is the lines of the old one at its ten line ends, edited line by line as the hunks say, joined by LF, with a final newline exactly if the old text ended in one |
| PatchText.RejoiningKeepsTextIffOnlyLf | agent/tools/apply_patch.py:263-292 | Splitting and joining keeps a text exactly when LF is its only terminator |
| PatchText.CarriageReturnIsLost | agent/tools/apply_patch.py:263-292 | A line ended by CR LF comes back ended by LF |
| PatchText.WrittenLinesAreReadBack | agent/tools/apply_patch.py:263-292 | Written lines are read back unless the last one is empty and unterminated |
| PatchText.ReversedHunksRestoreText | agent/tools/apply_patch.py:262-292 | On LF text the reversed hunks give the written file back character for character |
| PatchCommit.Workspace.Prepare | agent/tools/apply_patch.py:175-198 | Every operation is prepared against the files before the patch, or the first one that cannot be decides the error: an existing target, a missing file or a mismatch |
| PatchCommit.Workspace.Commit | agent/tools/apply_patch.py:200-223 | Succeeds exactly when every step can be carried out in turn; on failure every file is as before, shared targets included |
| PatchCommit.Workspace.Rollback | agent/tools/apply_patch.py:209-223 | Restoring last first brings back the files from before the patch |
| PatchCommit.Workspace.RestoreSnapshot | agent/tools/filesystem.py:539-586 | The target is as its snapshot was, present or absent |
| PatchCommit.Workspace.ApplyPatch | agent/tools/apply_patch.py:167-230 | The patch is applied completely or the workspace is unchanged, and exactly when |
| PatchCommit.DistinctTargetsGetTheirContents | agent/tools/apply_patch.py:200-208 | With distinct targets exactly the prepared contents are in place and nothing else changed |
| PatchCommit.DistinctTargetsFailOnlyByRefusal | agent/tools/apply_patch.py:200-208 | With distinct targets a commit fails only when the system refuses a step |
| PatchParser.DocumentsParseBack | agent/tools/apply_patch.py:89-164 | Every well-formed document written in the envelope parses back to itself |
| PatchParser.ParsedSectionsAreWellFormed | agent/tools/apply_patch.py:89-164 | Whatever is parsed has normalized distinct paths, non-empty updates and a mutation in every hunk |
| PatchParser.ParsingIsStable | agent/tools/apply_patch.py:89-164 | Parsing, writing and parsing again gives the same document |
| PatchParser.ParsePatch | agent/tools/apply_patch.py:89-164 | The index-advancing loop reads exactly the document the grammar gives, and refuses exactly the rest |
| PatchGrammar.EnvelopeIsValid | agent/tools/apply_patch.py:82-86 | Section lines and hunk headers cannot be taken for each other or for body lines |
| PatchGrammar.HeaderOfIsTheMatch | agent/tools/apply_patch.py:82-86 | Reading a header greedily finds a match of the pattern exactly when there is one |
| PatchSpelling.PatchIsParsedIff | agent/tools/apply_patch.py:89-164 | The lines that parse are exactly those that spell a patch, marker by marker and line by line with its own characters, and they parse to what they spell |
| PatchSpelling.SectionIff | agent/tools/apply_patch.py:82-84 | A section line is the words of its kind and the path behind at most one blank |
| PatchSpelling.HeaderIff | agent/tools/apply_patch.py:85-86 | A header is two at signs, or a start number with an optional count and anything before it closes |
| PatchGrammar.PatchesParseBack | agent/tools/apply_patch.py:82-164 | The round trip with the envelope's own marker lines |
| PatchGrammar.PatchTextsParseBack | agent/tools/apply_patch.py:82-164 | The round trip for the patch as one text |
| ProcessSessions.StepKeepsOk | agent/tools/process.py:1266-1502 | Every call keeps active, completed and dead ids disjoint, the tables within their limits and running sessions within theirs, moves every id only onward, and hands out a final result only for an id that had none handed out |
| ProcessSessions.RunKeepsOk | agent/tools/process.py:1266-1502 | The same over whole runs |
| ProcessSessions.FinalResultAtMostOnce | agent/tools/process.py:1300-1418 | Over every run a session's final result is returned at most once |
| ProcessSessions.PollReturnsFrozenResult | agent/tools/process.py:1378-1400 | A waiting result is returned as its watcher froze it and leaves a mark; a write loses it |
| ProcessSessions.CancellingTakesOnlyOwned | agent/tools/process.py:1420-1439 | Cancelling a Turn takes exactly its sessions and leaves every waiting result |
| ProcessSessions.CancellingForNoneTakesAll | agent/tools/process.py:1420-1439 | Cancelling for no Turn in particular leaves no session, and every waiting result |
| ProcessSessions.OnlyTheOldestResultGoes | agent/tools/process.py:1491-1496 | A new final result goes behind the waiting ones, and only the oldest goes, only from a full table |
| ProcessSessions.OnlyTheOldestMarkGoes | agent/tools/process.py:1498-1502 | The same for the marks of sessions that are over |
| ProcessAnswers.ExecIsAnswered | agent/tools/process.py:1300-1376 | Starting is refused when closed or full, leaves nothing behind when its caller is cancelled, and is otherwise answered by what the watcher collected, by a session that still runs under the caller's Turn, or by the result built from the pending output |
| ProcessAnswers.WriteIsAnswered | agent/tools/process.py:1378-1418 | For a live session: a write to an exited one is refused, a cancelled caller takes it along only as its owner, a broken pipe leaves it, and otherwise it is answered like a start |
| ProcessAnswers.UnknownIsRefused | agent/tools/process.py:1378-1400 | Without a session or a waiting result the call changes nothing and tells a session that is over from an unknown id |
| ProcessAnswers.ClosedRefuses | agent/tools/process.py:1441-1457 | A closed manager holds nothing and refuses both calls |
| ProcessAnswers.OthersStay | agent/tools/process.py:1300-1418 | A call touches no other session: what nothing happens to meanwhile is left as it was |
| ProcessAnswers.RunningCounts | agent/tools/process.py:1320-1321 | What counts against the limit is the number of running sessions |
| ProcessSessions.ProcessManager.Exec | agent/tools/process.py:1300-1376 | Starting, waiting and retiring is the exec step, for everything that happens meanwhile |
| ProcessSessions.ProcessManager.WriteStdin | agent/tools/process.py:1378-1418 | Every branch of polling and writing is the write step |
| ProcessSessions.ProcessManager.CancelActive | agent/tools/process.py:1420-1439 | The loop over owned sessions is the cancel step |
| ProcessSessions.ProcessManager.RememberCompleted | agent/tools/process.py:1491-1496 | The newest result stays; the oldest goes over the limit and is marked dead |
| ProcessSessions.ProcessManager.MarkDead | agent/tools/process.py:1498-1502 | The mark is the newest; the oldest goes over the limit |

## Left out

- Store failures: a store write succeeds or the process dies; a write that fails while the process lives on is not modelled.
- Interpreter exit inside a Turn: of the exceptions that are not ordinary errors only cancellation is modelled.
- The database, files, links, processes, terminals and sandboxes themselves; parent directories made by a rolled-back patch; schema migration, the listing order of Threads and the JSON text of state rows.
- The checkpoint, diagnostics, timestamps, usage and counters stored with a Thread; a summary keeps its id, status, text and restart mark.
- Settings validation beyond what the override codec needs; how settings resolve for a Turn.
- Unique ids: uuid values are ids never used before, an event id names one event, and a history fingerprint stands for the prefix it is taken of.
- Several Threads at once: each has its own record, rows, ring and manager, and nothing is said across them.
- Scheduling: everything between two waits is one step, and waits end in any of the listed ways.
- Tool arguments parsed from their raw text; tool registry, policy and evidence rules, which are parameters of a call.
- ToolBatch.ToolCoordinator.Execute: texts are Unicode scalar values, so that writing down a result cannot fail; the payloads of events are not modelled.
- ThreadRuntime.ThreadRecord.StartTurn: the form of keys and overrides is checked before it.
- ThreadRuntime.ThreadRecord.CloseThread: what cancelling the Turn does is in RunBudget and ToolBatch; closing the tools is outside.
- ThreadRuntime.ThreadRecord.UpdateSettings: the new values are not modelled, only their version.
- ThreadStore.LocalThreadStore.GetThread: a state row holds the state itself, so the failures of decoding its JSON are absent.
- MessageAssembler.Assembler.Assemble: the argument text is kept as it is; its parsing into arguments or an error is outside.
- ContextReduction.ContextManager.Reduce: the pressure checks before and after it are outside; pruning is any function that shortens results in place.
- EventStreamAdapter.Stream: heartbeats, the end of the stream and the realtime subscription are not modelled; the realtime path may repeat events around a host failure.
- HistorySelection.Select: token estimates and request sizes are arbitrary functions.
- Compaction.RollingCompact: compactors that expose no source, the summary's metadata and the text format of the request are not modelled.
- ResultBounds.BoundMetadataValue: the ranks of the objective names are any function, and byte strings or values that are no JSON appear only through their text form.
- ResultBounds.FitMetadata: the diagnostics besides the counts are any function of the original size.
- LineReader.ReadTextPage: size limits, NUL bytes and undecodable files are refused before the model begins; the content hash is not modelled.
- BoundedReader.ReadTextPageBounded: start and end line and the selected-bytes count of the page are not modelled.
- PatchGrammar.HeaderOfIsTheMatch: digits are the ten ASCII digits, where the pattern of the source also takes other decimal digits.
- PatchParser.ParsePatch: the validation of a path is a parameter, and all refusals are one.
- PatchCommit.Workspace.Prepare: files hold text; the refusals of NUL bytes, undecodable files and targets that are no files come before it.
- PatchCommit.Workspace.ApplyPatch: the same refusals are outside, so the exact condition is that of workspaces of text files.
- PatchCommit.Workspace.Commit: a refused step leaves its own target alone and restoring succeeds.
- PatchCommit.Workspace.RestoreSnapshot: file modes, hard links and a restore that fails are not modelled.
- ProcessSessions.StepKeepsOk: calls are made one at a time, as the coordinator makes them; output buffers, timeouts and process signals are outside, and what a read returns is a parameter until the watcher has frozen it.
- Realtime subscriptions, HTTP routes, provider adapters, the command line, the user interface, skills, prompts and workspace leases.
