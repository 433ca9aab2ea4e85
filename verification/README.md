# IVRDroid: verified model of flows, sessions and calls

IVRDroid turns an Android tablet into an answering machine.  An editor on the server draws a call flow as
a tree of blocks; the server compiles the tree to a flat tape with a worst-case session time; a helper on
the tablet checks the tape without trusting the server, runs it while a caller is on the line, connects an
operator through an app it does not trust either, records conversations through a shared audio ring into
crash-safe files, and reports what happened to the server, which notifies people once.

This project models those parts and proves what they promise.  The whole project is checked with
`dafny verify dfyconfig.toml`.

## Layout

| files | subject |
|---|---|
| `Flow`, `Lowering`, `FlowCompiler`, `Simulation`, `Meaning` | the block tree, its numbering, the compiler, the walk of the tree, and their agreement |
| `Decompile` | the whole flow read back from its tape |
| `Tape`, `ProgramVerifier`, `Agreement` | the tape, the check made on the device, and exactly which flows pass it |
| `Session`, `Interpreter`, `SessionSteps`, `RunSafety` | running a tape: what every event leads to, the transition cap is never met, nothing is recorded before a prompt |
| `SessionCost`, `CycleGuard`, `SessionBound` | the search for the worst case, when its cycle guard speaks, and the exactness of its number |
| `Validation`, `Publish` | the editor's walk, and all stages put together |
| `ExternalCallPolicy`, `ExternalCallRuns` | the operator call: the message policy, and its runs told by the messages |
| `ExternalCallDriver`, `ExternalCallOutcomes` | the loop, the teardown, the proof of the caller, and what a call comes to, in both directions |
| `AudioRing`, `PcmFile` | the shared ring under every interleaving; the recording file under every crash |
| `Windows`, `SafetyTimers`, `CallRecovery`, `RecoveryTurns` | timer policies as statements about whole histories; ending one call with bounded hangups, and when each is sent |
| `Wire`, `CallControlCodec`, `ConversationHandoff`, `NativeSnapshot` | the text protocols and their inverses |
| `Sha256`, `Sha256Standard`, `Sha256Constants` | the streaming hash against its one-shot definition, and that against FIPS 180-4: bits, bytes and where the constants come from |
| `CallHistory`, `CallResults` | event receipts and notifications on the server; what the record of a call says after any run of uploads |

Objects that the program updates in place are classes with the same fields; each method is proved against
a function of its old state, and the properties are lemmas about those functions.  What a loop reads from
outside (status files, clocks, Telecom, the guardian process) is a finite script of polls; a script that
runs out is the stop request that ends the loop.

## What the proofs showed about the code

* **Stopping a conversation can write past the agreed end.**  A stop is two stores, the end of the
  conversation first and the stop flag second.  If nothing is published between them, every continuation
  that ends by request has written exactly first..endSequence (`AudioRing.QuietStopIsExact`).  If a frame is
  published between them while the writer is polling, some schedule writes beyond the end, unless the writer
  still wants a frame up to the end and has been lapped by the ring (`AudioRing.LateFrameOvershoots`, an
  if-and-only-if).
* **The cycle guard of the compiler is about trapped returns, and only those.**  A return inside the
  return-limit branch of its own menu makes the search go round exactly when every return-limit branch on
  the way to it can open, that is, when each of those menus also has an ordinary return
  (`CycleGuard.GuardExact`).  A self-return that no walk can reach is compiled without complaint, and the
  device refuses it all the same (`CycleGuard.IdleTrapCompilesButIsRefused` is such a flow).
* **Events converge up to the spelling of their time.**  The identity of an event normalises its time, the
  stored text and the sort key do not.  Every order of arrival leaves the same identities; it leaves the
  same list if and only if no identity arrived in two spellings (`CallHistory.ConvergesExactly`).
* **A version-2 recording lives on its capture ends.**  `Append` takes any capture end.  With one before
  `elapsedMs` the next checkpoint replaces the good context by an empty file, and everything recorded so far
  is lost to recovery (`PcmFile.EarlyEndSpoils`).  At a checkpoint every crash is recoverable if and only if
  the end was acceptable (`PcmFile.ContinuousPcmFile.WriteFrame`).  The ends both writers compute from frame
  numbers always are (`PcmFile.WritersPassLaterEnds`), so a whole conversation is safe at every crash point
  (`PcmFile.WriteConversation`).
* **An announcement near the end of the 64-bit clock is refused and waits all the same.**
  `MarkSegmentFinalized` sets its pending state before the deadline overflows, and then answers no.
* **Emergency and second-call sightings do not reset the timers** of the monitor and the recovery policy:
  a window may span one.  The verdicts are stated that way, and the literal reading is proved for
  histories without them.

## Model

| member | source | states |
|---|---|---|
| Flow.SortedStrictlyIffDistinct | server/app/flow_v2.py:18-25 | the sorted branches rise strictly in key order, as the device demands, exactly when no key is used twice |
| Flow.Up | server/app/compiler_v4.py:49-109 | every block but the root is a child of an earlier block, at a position given by the sizes of its elder siblings, with the owner, notice and return rule that block passes on |
| Flow.WalkBlocks | server/app/flow_v2.py:54-62 | the explicit-stack walk yields the blocks and depths in the order in which the compiler numbers them |
| Simulation.BranchFor | server/app/simulation_v4.py:171-187 | a key finds the last of the branches saved for it, and none only if there is none |
| Lowering.SlotAt | server/app/compiler_v4.py:120-167 | every target the compiler writes is the number of that child in the tree, ahead of the block itself |
| Lowering.OwnerAt | server/app/compiler_v4.py:61-71 | the menu carried to a block is listed before it and spans it |
| FlowCompiler.Collector.Collect | server/app/compiler_v4.py:49-107 | the collecting walk appends exactly the blocks of the subtree with their menus, or reports a fault that the subtree has |
| FlowCompiler.NumberBlocks | server/app/compiler_v4.py:118-121 | the dictionary holds the position of every listed block and of nothing else |
| FlowCompiler.EmitLoop | server/app/compiler_v4.py:123-168 | the emission loop writes the instruction of every block, whose content `Decompile.TapeHoldsFlow` determines |
| FlowCompiler.CompileFlowV4 | server/app/compiler_v4.py:46-238 | a program comes out exactly for a compilable flow without a trapped return whose worst case fits ten minutes; the whole flow can be read back from it and it records as configured; every error names a fault the flow has |
| Decompile.TapeHoldsFlow | server/app/compiler_v4.py:123-168 | a function of the tape alone gives back the compiled flow, with phone numbers, prompts, schedules, times, limits, keys and every slot, its branches in key order |
| Decompile.TapeRecordsAs | server/app/compiler_v4.py:151-157 | every recording step is as long, in milliseconds, and ends with the key, that the recording behaviour says |
| Decompile.TapeDeterminesFlow | server/app/compiler_v4.py:123-168 | two flows saved in key order that compile to one tape are one flow, and with a recording step one recording behaviour |
| Meaning.MeaningPreserved | server/app/compiler_v4.py:49-168 | on every list of events the tape executes the same blocks in the same order and ends in the same way as the walk of the tree |
| Meaning.SameChoice | server/app/simulation_v4.py:170-199 | the attempt loops of the device and of the walk choose the same way out of a menu |
| Meaning.ReturnStep | server/app/simulation_v4.py:133-148 | a return goes to the innermost menu, or past its limit, on both sides and with the same count |
| ProgramVerifier.ProgramCheck.AddEdge | helper/src/revision_config.cpp:183-191 | an edge is refused exactly when it leaves the program, and otherwise counted against its target |
| ProgramVerifier.ProgramCheck.CheckOwners | helper/src/revision_config.cpp:248-254 | the owner counts pass exactly when the entry is free and all else has one owner |
| ProgramVerifier.ProgramCheck.CheckGreetings | helper/src/revision_config.cpp:255-261 | the recorded parents pass exactly when every V3 record step is owned by a play step |
| ProgramVerifier.CountsDecideOwners | helper/src/revision_config.cpp:248-254 | full owner counts decide whether the tape is a forest with one root |
| ProgramVerifier.ProgramCheck.Visit | helper/src/revision_config.cpp:264-290 | the recursive walk succeeds with a placement of everything it saw, and fails only if there is none |
| ProgramVerifier.ProgramCheck.ValidatePromptNotice | helper/src/revision_config.cpp:291-318 | the second walk passes exactly when every record or call step below is preceded by a notice |
| ProgramVerifier.ValidateProgramV2 | helper/src/revision_config.cpp:175-320 | the device accepts a tape if and only if it is one tree within the depth and size limits with rightful returns and notices |
| Tape.PlacementUnique | helper/src/revision_config.cpp:264-290 | depth, owner, forbidden menu and notice of every instruction are determined by the tape |
| Agreement.CompiledOneOwner | server/app/compiler_v4.py:49-168 | every instruction of a compiled tape but the first has exactly one owner |
| Agreement.CompiledPlacement | server/app/compiler_v4.py:49-109 | what the compiler carries down the tree is what the verifier carries down the tape |
| Agreement.LineParsesIff | helper/src/revision_config.cpp:517-567 | the parser bounds on play and menu lines hold exactly for menus with distinct keys, a branch, and a prompt where interruption is allowed |
| Agreement.CompilerVerifierAgree | helper/src/revision_config.cpp:175-320 | the device accepts a compiled tape if and only if the flow has at most 64 blocks, depth at most 8, chosen prompts, usable menus and no self-return |
| Interpreter.AskLoop | helper/src/main.cpp:5775-5830 | the attempt loop routes a key, the last invalid key or the last silence to the slot it belongs to |
| Interpreter.Transition | helper/src/main.cpp:5761-5974 | one turn of the switch on program counter, return counters and events |
| SessionSteps.MenuExactly | helper/src/main.cpp:5775-5830 | after any number of misses within the attempts a key leads to its branch, the last miss to silence or wrong key as it was, a hangup to the end, and no event to waiting |
| SessionSteps.EventExactly | helper/src/main.cpp:5831-5974 | every schedule state, recording outcome and call result leads to its own slot or end |
| SessionSteps.EventlessExactly | helper/src/main.cpp:5848-5873 | a return goes back while its menu has returns left, using one up, and then past the limit |
| Interpreter.RunConfiguredProgramV2 | helper/src/main.cpp:5733-5977 | the loop with its counters and cap is the run of the tape whose properties follow |
| RunSafety.CapNeverReached | helper/src/main.cpp:5756-5760 | an accepted tape ends every run by itself within 144 instructions, never at the cap, at a missing instruction, at a menu without a route or at a return without a menu |
| RunSafety.StepDecreases | helper/src/main.cpp:5761-5974 | every transition of an accepted tape lowers a bound computed from depth and returns left |
| RunSafety.TrailIsVisited | helper/src/main.cpp:5761-5764 | the blocks reported by a run are those of the program counters it executed |
| RunSafety.AncestorsFirst | helper/src/main.cpp:5848-5873 | whenever an instruction runs, all its ancestors in the tree have run, across returns and return limits |
| RunSafety.PromptBeforeRecording | helper/src/revision_config.cpp:291-318 | no record or operator step runs before a step that gives the caller a prompt |
| SessionCost.CostSearch.MaximumCost | server/app/compiler_v4.py:174-233 | the memoised search with its guard set returns the largest total charge, or raises exactly when no bound on the number of moves exists |
| SessionSteps.ChargeOfBlock | server/app/compiler_v4.py:184-221 | what a step is charged, said of the block the editor saved and the recording behaviour, in seconds and attempts |
| SessionSteps.MenuWithinCharge | server/app/compiler_v4.py:189-196 | no attempt loop listens more often than charged for |
| SessionCost.CycleNeverHalts | server/app/compiler_v4.py:176-178 | a position that comes back to itself has runs of every length |
| CycleGuard.LiveMove | server/app/compiler_v4.py:222-230 | without a trapped return every move from a reachable block lowers (returns left, instructions ahead) in lexicographic order |
| CycleGuard.ReturnBeforeLimit | server/app/compiler_v4.py:59-71 | an ordinary return is numbered before the whole return-limit branch of its menu |
| CycleGuard.UseUp | server/app/compiler_v4.py:222-230 | a menu with an ordinary return can be used up, so that its return-limit branch opens |
| CycleGuard.GuardExact | server/app/compiler_v4.py:172-236 | the guard speaks if and only if some return that a walk can get to lies in the return-limit branch of its own menu |
| CycleGuard.IdleTrapCompilesButIsRefused | server/app/compiler_v4.py:172-236 | a flow with a self-return that no walk reaches, which compiles and which the device refuses |
| SessionBound.ChargesBounded | server/app/compiler_v4.py:174-236 | no run charges more than the number found |
| SessionBound.ChargesAttained | server/app/compiler_v4.py:174-236 | some run that ends by itself charges exactly that number |
| SessionBound.WorstCaseExact | server/app/compiler_v4.py:174-238 | a compiled flow without a trapped return has a worst case that is an upper bound and is reached |
| SessionBound.ElapsedWithinBound | server/app/compiler_v4.py:174-238 | steps that each keep within their charge add up to no more than the worst case |
| Validation.SortKeepsBag | server/app/flow_v2.py:18-25 | the blocks below the digit branches are the same, with the same contexts, in saved order and in key order |
| Validation.TidyJoin | server/app/validation.py:387-390 | a walk over two groups of blocks complains of neither exactly if it complains of neither in turn, ids being carried over |
| Validation.Validator.Visit | server/app/validation.py:378-493 | the recursive walk with its shared sets complains exactly if some block below it is unsound or some id repeats, and otherwise knows all ids and the greatest depth |
| Validation.ValidateConfigurationV4 | server/app/validation.py:353-503 | the editor has no complaint about a flow exactly if the flow is compilable, within the device's limits, and names only known prompts and schedules |
| Publish.ValidationErrors | server/app/v4_api.py:55-77 | the editor's walk and trial compilation pass exactly the flows whose tape the device accepts, whose names are known and whose worst case fits ten minutes |
| Publish.PublishedSession | server/app/v4_api.py:55-77 | a flow that passes those checks is compiled, accepted by the device and run there as the tree says, in at most 144 steps and within ten charged minutes |
| ExternalCallPolicy.ExternalCall.Observe | helper/src/external_call_policy.cpp:87-197 | one status message changes the fields and is answered as the policy function says |
| ExternalCallPolicy.ExternalCall.MarkRecorderReady | helper/src/external_call_policy.cpp:199-206 | the recorder counts as ready exactly after the answer and before the heartbeat deadline |
| ExternalCallPolicy.ExternalCall.Deadline | helper/src/external_call_policy.cpp:334-367 | each timeout is reported exactly when its own deadline has passed in its own stage and the heartbeat is not lost; a lost heartbeat without fresh independent evidence comes first |
| ExternalCallPolicy.StepForward | helper/src/external_call_policy.cpp:87-206 | no input moves the stage back, and each stage is entered only in its own way |
| ExternalCallPolicy.StagesForward | helper/src/external_call_policy.cpp:87-206 | over every run the stage never goes back and deadlines once set never move |
| ExternalCallPolicy.StartRecorderOnce | helper/src/external_call_policy.cpp:151-157 | a run asks for the recorder at most once |
| ExternalCallPolicy.CompletedHasHistory | helper/src/external_call_policy.cpp:151-181 | a call is reported complete only after recorder ready, then merging, then conference, in that order |
| ExternalCallPolicy.SilentErasable | helper/src/external_call_policy.cpp:87-110 | deleting foreign messages, repeats in time and messages after the end changes neither the final state nor any other decision |
| ExternalCallRuns.EndingsExact | helper/src/external_call_policy.cpp:161-197 | over every run each ending of a call is reported if and only if its own message came, new, with the heartbeat alive, in a stage it fits; a lost heartbeat ends with a timeout |
| ExternalCallRuns.ProgressExact | helper/src/external_call_policy.cpp:87-160 | over every run each progress answer, each foreign message and each breach of the protocol is reported if and only if the message is one |
| ExternalCallRuns.EndedExactly | helper/src/external_call_policy.cpp:87-197 | an attempt has ended exactly if some message was answered with an ending |
| ExternalCallRuns.FieldsFollow | helper/src/external_call_policy.cpp:128-163 | the heartbeat deadline is counted from the last message noted, the answer deadline from the first DIALING, the merge deadline from the first MERGING, the setup deadline from the start |
| ExternalCallRuns.FreshExact | helper/src/external_call_policy.cpp:100-127 | lost heartbeats, new messages and phases in order, told by the messages noted before and the evidence of the conference |
| ExternalCallRuns.OrderlyCompletes | helper/src/external_call_policy.cpp:87-181 | an app that keeps the protocol is never refused, and the operator hanging up in the conference completes the call |
| ExternalCallDriver.TeardownPolicy.Observe | helper/src/external_call_policy.cpp:244-290 | one message of a teardown changes the fields and is judged as the policy function says |
| ExternalCallDriver.OneTerminalVerdict | helper/src/external_call_policy.cpp:244-290 | a teardown reports at most one terminal decision over any list of messages |
| ExternalCallDriver.CallerSafePolicy.Observe | helper/src/external_call_policy.cpp:303-332 | every decision is the one the whole history of sightings calls for |
| ExternalCallDriver.ProvedIff | helper/src/external_call_policy.cpp:325-331 | the one timestamp decides whether the caller has been alone for the whole span |
| ExternalCallDriver.GuardianBudget.Conference | helper/src/external_call_policy.cpp:376-390 | one conference moves the guardian's deadline by its own length, saturating; a guardian that had expired before it has no time left after it |
| ExternalCallDriver.ConfirmOriginalCallerSafe | helper/src/main.cpp:3592-3627 | true exactly when the wait is settled by a proof that the caller is alone, with no notice before |
| ExternalCallDriver.ConfirmedProves | helper/src/main.cpp:3592-3627 | such a wait has seen the original caller as the only call for the whole window, in time |
| ExternalCallDriver.AwaitTeardown | helper/src/main.cpp:3540-3590 | the wait ends as the first message that settles it says |
| ExternalCallDriver.TeardownMeaning | helper/src/main.cpp:3560-3590 | a safe end was asked for, and a caller hangup or cleanup timeout was reported for this attempt |
| ExternalCallDriver.CallLoop | helper/src/main.cpp:3770-3928 | the call loop ends as its turns say, and an outcome it did not cancel is the app's last word |
| ExternalCallDriver.StageDeadlinesKept | helper/src/main.cpp:3770-3928 | over every script, after each turn the loop survives the heartbeat is alive or excused by evidence and the deadline of the present stage has not passed |
| ExternalCallDriver.FirstLateTurnEnds | helper/src/main.cpp:3770-3928 | the first turn that looks at the clock too late ends the loop, unanswered if only the answer is late and cancelled otherwise |
| ExternalCallDriver.ExecuteExternalCall | helper/src/main.cpp:3636-4012 | the result of the call; a branching one needs the dial published and the caller proved, after a cancellation also the terminal message asked for, and completion needs recorder, merge and conference |
| ExternalCallOutcomes.WordOfTheApp | helper/src/main.cpp:3790-3900 | every answer of the policy ends the loop, or not, with its own result, if the guardian can be told |
| ExternalCallOutcomes.NoticesEnd | helper/src/main.cpp:3770-3796 | a hangup notice ends the loop with a teardown, a failed notice or untold evidence with failure |
| ExternalCallOutcomes.EndsAtTurn | helper/src/main.cpp:3770-3928 | the loop ends with the first turn that has an end, and with that end |
| ExternalCallOutcomes.FlagsFollow | helper/src/main.cpp:3760-3850 | over every script the loop counts the conference as begun exactly in its stage, and the recorder as ready exactly from its stage on |
| ExternalCallOutcomes.VerdictExact | helper/src/external_call_policy.cpp:244-290 | each verdict of a teardown is given if and only if the message is of its kind |
| ExternalCallOutcomes.StillOpen | helper/src/main.cpp:3560-3590 | while the wait lasts nothing has ended it and a new message becomes the last one |
| ExternalCallOutcomes.AwaitedEnds | helper/src/main.cpp:3560-3590 | a wait that lasts till an awaited ending arrives ends safe, or with the caller hung up; till the app's cleanup timeout, with that; till another ending, failed |
| ExternalCallOutcomes.AskedFor | helper/src/main.cpp:3952-3968 | each cancellation and the caller's leaving wait for their own ending |
| ExternalCallOutcomes.SettledExact | helper/src/main.cpp:3939-3989 | what the wait makes of every end of the loop |
| ExternalCallOutcomes.OutcomeExact | helper/src/main.cpp:3991-4012 | a branching end is kept exactly if the caller is proved and the guardian told; an unproved caller has hung up exactly if the line is idle |
| ExternalCallOutcomes.ConfirmedExactly | helper/src/main.cpp:3592-3627 | the caller is taken as safe if and only if some look completes a second of the caller alone after nothing but clean looks, within two and a half seconds |
| AudioRing.CopyIsWhole | helper/src/session_audio.cpp:338-346 | a copy that passes the second stamp check is the frame with that sequence, whole, in every interleaving |
| AudioRing.StepKeeps | helper/src/session_audio.cpp:326-346 | every atomic step of the producer or of any reader keeps the ring invariant |
| AudioRing.OutputContiguous | helper/src/session_audio.cpp:654-670 | what a conversation writer has written is always the frames first, first+1, ... without gap, repeat or reordering |
| AudioRing.QuietStopIsExact | helper/src/session_audio.cpp:690-695 | if nothing is published between the two stores of a stop, every continuation that ends by request has written exactly first..endSequence |
| AudioRing.LateFrameOvershoots | helper/src/session_audio.cpp:654-670 | with a frame published in between and the writer polling, some continuation writes beyond the end if and only if the writer is past it already or not lapped |
| AudioRing.StoppedAt | helper/src/session_audio.cpp:655-656 | a writer ended by request has written exactly first..endSequence if and only if it had not already taken a later frame |
| AudioRing.OvershootExists | helper/src/session_audio.cpp:690-695 | a frame published between the two stores of a stop request is written beyond the end |
| PcmFile.ContinuousPcmFile.Append | helper/src/continuous_recording.cpp:92-101 | the frames become part of the recording exactly when they fit and no write fails, whatever the capture end; a failure leaves recording and context as they were |
| PcmFile.ContinuousPcmFile.WriteFrame | helper/src/session_audio.cpp:667-669 | append and a checkpoint at every whole second; there every crash is recoverable if and only if the capture end was acceptable, and otherwise only an empty context is left |
| PcmFile.EarlyEndSpoils | helper/src/continuous_recording.cpp:92-107 | a capture end before the start of the recording, checkpointed, leaves an empty context after every crash |
| PcmFile.WritersPassLaterEnds | helper/src/session_audio.cpp:332-332 | the end computed from any frame number from the first on is acceptable for the start computed from the first |
| PcmFile.WriteConversation | helper/src/session_audio.cpp:642-678 | a conversation writer's file is crash safe after every single operation, holds the frames taken up to some point, and if saved is sealed and recoverable |
| PcmFile.ContinuousPcmFile.Checkpoint | helper/src/continuous_recording.cpp:102-107 | audio before context, so that every crash in between leaves a context whose frames are safe |
| PcmFile.ContinuousPcmFile.Finish | helper/src/continuous_recording.cpp:108-114 | on success exactly the appended frames are on disk, safe and sealed; a failure means that an operation failed |
| PcmFile.CrashLeavesPrefix | helper/src/continuous_recording.cpp:72-107 | after any crash the context names frames that are on disk and are a prefix of what was appended |
| PcmFile.Recover | helper/src/continuous_recording.cpp:115-123 | recovery fails only on a bad context, missing audio or a failing operation, and seals exactly the committed prefix |
| PcmFile.RecoverableAgain | helper/src/continuous_recording.cpp:115-123 | a crash during recovery leaves a disk from which the same audio is recovered |
| PcmFile.RecoverDirectory | helper/src/session_audio.cpp:735-741 | anything but a directory with a readable, valid context and its audio is refused; such a one is sealed with exactly its committed frames unless an operation fails |
| Windows.SinceSpans | helper/src/call_safety_policy.cpp:40-60 | one timestamp answers whether an unbroken stretch of a given length ends the history |
| SafetyTimers.SessionCallMonitor.Observe | helper/src/call_safety_policy.cpp:22-61 | every decision of the monitor is the one its whole history calls for |
| SafetyTimers.MonitorOnPlainHistory | helper/src/call_safety_policy.cpp:22-61 | without emergency or second calls the monitor reports an ended or unverified call exactly when an unbroken run of matching sightings spans the limit |
| SafetyTimers.PreemptExactly | helper/src/call_safety_policy.cpp:22-39 | an emergency and a second call preempt at once, and nothing else does |
| SafetyTimers.PrivacyStability.Observe | helper/src/privacy_policy.cpp:22-57 | every decision of the privacy policy is the one its whole history calls for |
| SafetyTimers.ReadyOnce | helper/src/privacy_policy.cpp:38-56 | ready is said at most once |
| SafetyTimers.ReadyExactly | helper/src/privacy_policy.cpp:38-56 | ready is said exactly at the first look that completes an uncontested window with the route ready and no correction after its start |
| SafetyTimers.AbortExactly | helper/src/privacy_policy.cpp:22-37 | privacy is given up if and only if the clock runs back or a contended route has not been verified within the time allowed |
| CallRecovery.RecoveryPolicy.Observe | helper/src/call_safety_policy.cpp:98-172 | every decision of the recovery policy is the one its whole history of sightings and attempts calls for |
| CallRecovery.RecoveryPolicy.RecordHangupAttempt | helper/src/call_safety_policy.cpp:174-184 | an attempt is recorded exactly while attempts are left and the clock has not run backwards |
| CallRecovery.EndSingleCallAndWait | helper/src/main.cpp:4311-4431 | the loop ends on the first turn that settles it, or by the stop request, and lists the turns that sent a hangup |
| CallRecovery.HangupNeedsWindow | helper/src/main.cpp:4334-4428 | a hangup follows an unbroken window in which the session's own call was the single safe call, and a last look that found it again |
| CallRecovery.HangupsBounded | helper/src/call_safety_policy.cpp:148-184 | a recovery sends no more hangups than allowed, each at least the retry interval after the one before |
| CallRecovery.RecoveryEnds | helper/src/main.cpp:4334-4431 | once the total time has passed every further turn spends a hangup attempt, so the loop ends within the attempts left |
| CallRecovery.EndedNeedsIdle | helper/src/call_safety_policy.cpp:131-146 | a call is reported ended only after an unbroken idle run of the confirmation or audio-lag length |
| RecoveryTurns.TurnVerdict | helper/src/call_safety_policy.cpp:98-172 | at every turn the loop gets to, each answer is given if and only if the turns so far call for it; failing means attempts used up with the retry interval over, the total time over, or a clock running back |
| RecoveryTurns.HangupExactly | helper/src/main.cpp:4334-4428 | a hangup is sent if and only if the session's own call has been alone for the confirmation time, none was sent yet or attempts are left and the retry interval is over, the route is private and the last look finds the call |
| RecoveryTurns.EndExactly | helper/src/main.cpp:4334-4431 | each way the loop can end at a turn, if and only if |
| Wire.Split | helper/src/call_control_protocol.cpp:12-26 | the fields of a text, and none if some field is empty |
| Wire.JoinedInjective | helper/src/call_control_protocol.cpp:12-26 | a text is the join of at most one list of fields |
| Wire.ParseCanonical | helper/src/call_control_protocol.cpp:28-46 | a number is accepted exactly if the text is its canonical decimal form and it fits the type |
| CallControlCodec.ParseRequest | helper/src/call_control_protocol.cpp:115-177 | the request a line spells, or the invalid one |
| CallControlCodec.EncodeRequest | helper/src/call_control_protocol.cpp:200-243 | the line of an acceptable request, which never exceeds the length limit, or nothing |
| CallControlCodec.RequestWireRoundTrip | helper/src/call_control_protocol.cpp:115-243 | every accepted request line re-encodes to the same bytes |
| CallControlCodec.RequestValueRoundTrip | helper/src/call_control_protocol.cpp:115-243 | every request the encoder accepts parses back to itself, unused fields at their defaults |
| CallControlCodec.StatusRoundTrip | helper/src/call_control_protocol.cpp:179-198 | a line is accepted as a status exactly when it is the line of that well-formed status |
| ConversationHandoff.AcknowledgementRoundTrip | helper/src/conversation_handoff_protocol.cpp:63-134 | parsing inverts encoding on everything the encoder accepts and accepts nothing else |
| ConversationHandoff.HandoffPolicy.MarkSegmentFinalized | helper/src/conversation_handoff_protocol.cpp:174-186 | a segment is announced only in turn and only when the one before has been acknowledged; one whose deadline overflows 64 bits is answered no but waits |
| ConversationHandoff.HandoffPolicy.Observe | helper/src/conversation_handoff_protocol.cpp:188-219 | every decision is given if and only if its own condition holds; an acknowledgement is accepted exactly for the one finished segment waiting for it, in time, so that segments are accepted in order, each once |
| NativeSnapshot.FormatNativeCallSnapshot | helper/src/telecom_guard.cpp:272-284 | the line of a printable snapshot, or nothing |
| NativeSnapshot.ParseNativeCallSnapshot | helper/src/telecom_guard.cpp:285-316 | the snapshot a text spells for this boot and session, if it is fresh |
| NativeSnapshot.SnapshotFits | helper/src/telecom_guard.cpp:272-287 | with at most sixteen legal calls and boot and session ids of up to 2300 characters together the reader's length limit is never met |
| NativeSnapshot.SnapshotRoundTrip | helper/src/telecom_guard.cpp:272-316 | a snapshot with distinct legal ids and legal states survives the file exactly while it is fresh |
| NativeSnapshot.AcceptedIsLegal | helper/src/telecom_guard.cpp:285-316 | whatever is accepted is a legal snapshot |
| NativeSnapshot.ResolveOwnedConference | helper/src/telecom_guard.cpp:249-270 | the conference is found exactly when some call makes the two owned legs a conference |
| NativeSnapshot.OneConference | helper/src/telecom_guard.cpp:260-271 | the parent of two known legs is determined by the snapshot |
| Sha256.Hasher.Update | helper/src/sha256.cpp:115-131 | the bytes taken in are the message so far followed by the data, whole blocks compressed and the rest buffered |
| Sha256.Hasher.Finish | helper/src/sha256.cpp:133-155 | the digest is that of the padded whole message, now and on every later call |
| Sha256.HashChunks | helper/src/sha256.cpp:115-155 | however a message is cut into updates the digest is that of sections 5.1.1, 5.2.1 and 6.2.2 of FIPS 180-4 |
| Sha256.FoldAppend | helper/src/sha256.cpp:61-131 | compressing whole blocks one list after another is compressing the two lists together |
| Sha256Standard.ChBits | helper/src/sha256.cpp:89-89 | each bit of Ch is that of its second or third argument as the first says |
| Sha256Standard.MajBits | helper/src/sha256.cpp:94-94 | each bit of Maj is the one at least two arguments have |
| Sha256Standard.BigSigma0Bits | helper/src/sha256.cpp:92-93 | each bit is the exclusive or of the bits 2, 13 and 22 places up, around the end |
| Sha256Standard.BigSigma1Bits | helper/src/sha256.cpp:87-88 | the same for 6, 11 and 25 places |
| Sha256Standard.SmallSigma0Bits | helper/src/sha256.cpp:67-70 | the same for 7 and 18 places around the end and 3 places with zeros behind it |
| Sha256Standard.SmallSigma1Bits | helper/src/sha256.cpp:71-74 | the same for 17, 19 and 10 places |
| Sha256Standard.ReadSpelt | helper/src/sha256.cpp:38-44 | a word is read as the number its four bytes spell, most significant first |
| Sha256Standard.WriteRead | helper/src/sha256.cpp:38-51 | writing and reading a word are inverse |
| Sha256Standard.PaddedMeaning | helper/src/sha256.cpp:133-150 | padding is the message, a one, the fewest zeros to whole blocks, and the length in bits modulo 2^64 |
| Sha256Standard.ScheduleWords | helper/src/sha256.cpp:62-76 | the schedule is the words of the block and then the recurrence of section 6.2.2 of FIPS 180-4 |
| Sha256Standard.TwoSequences | helper/src/sha256.cpp:86-105 | the rounds continue two sequences whose last four values are the eight variables |
| Sha256Standard.DigestSpelt | helper/src/sha256.cpp:150-154 | the digest holds the eight words of the last hash value in order |
| Sha256Constants.FirstPrimes | helper/src/sha256.cpp:15-32 | the numbers the constants come from are exactly the primes up to 311 |
| Sha256Constants.PrimesRise | helper/src/sha256.cpp:15-32 | and stand in increasing order |
| Sha256Constants.RoundConstants | helper/src/sha256.cpp:15-32 | constant t is the first 32 bits of the fraction of the cube root of prime t |
| Sha256Constants.InitialValue | helper/src/sha256.cpp:55-59 | the initial hash value is that of the square roots of the first eight primes |
| CallHistory.CallStore.MergeEvents | server/app/call_history.py:23-45 | merging keeps the first document of every identity and lists the receipts in order |
| CallHistory.ClassifyCall | server/app/ntfy.py:437-454 | a result and policy give each terminal notice they are worth exactly once and no failure notice |
| CallHistory.CallStore.ClaimNotifications | server/app/call_history.py:48-61 | claiming sends the terminal notices still due and one notice for each unclaimed failure, and leaves nothing unclaimed |
| CallHistory.CallStore.UploadEvents | server/app/main.py:1173-1215 | a call report opens the record or merges into it, replacing only a result that is not real; one with an invalid or a different audit report is refused and leaves everything as it was |
| CallHistory.CallStore.UploadCallEvents | server/app/main.py:1154-1170 | events are kept before their call is known and claimed once it has ended |
| CallHistory.EventsAreFirsts | server/app/call_history.py:23-45 | after any run that reports the call, its events are the identities delivered, each once, by the first document, in order |
| CallHistory.IdentitiesConverge | server/app/call_history.py:23-45 | every order of arrival and every retry leaves the same identities |
| CallHistory.ConvergesExactly | server/app/call_history.py:43-45 | every order leaves the same list if and only if no identity arrived in two spellings of its time |
| CallHistory.ResultStays | server/app/main.py:1188-1194 | a real result is never replaced |
| CallResults.RecordIsFirsts | server/app/main.py:1182-1212 | after every run of uploads the call has really ended if and only if some accepted report says so; its result is the first real one, without one it says that the end is missing if some report did; policy and audit report are the first to come |
| CallResults.RefusedExactly | server/app/main.py:1181-1199 | a report is refused if and only if its audit report is not allowed, belongs to a call the stock dialer keeps, or differs from the one taken |
| CallHistory.NoticesOnce | server/app/call_history.py:48-61 | when the call has ended, each terminal notice its result is worth and the notice of each failure have been sent exactly once; before that, nothing |
| CallHistory.RetryIsSilent | server/app/main.py:1154-1215 | repeating any earlier upload at any later time sends nothing and changes nothing |
| CallHistory.LegacyIsSilent | server/app/call_history.py:29-36 | failures listed on an ended record from before receipts are never announced, whatever is uploaded later |

## Left out

- V1 flows, the V2 and V3 compilers (the same lowering with fewer blocks), the dashboard, HTTP, SQL, authentication, mail, media storage and packaging.
- Validation.ValidateConfigurationV4: branch identifiers, schedule lists, time zones and the total size of prompt assets are not part of a flow here; the messages are one verdict.
- Hashing and signing of programs and configurations, and the parts of the configuration text other than instruction lines.
- Playback, key detection, capture and recording devices: a prompt always completes, and each wait reports one event. Session expiry and a stop request cut a run short; the runs here are uncut. The session path text and its cap of 64 entries.
- Simulation.BranchFor: the editor's simulation counts any unknown text as an invalid key; here an event of the wrong kind stops both the walk and the interpreter, which only meets events its devices can report.
- Interpreter.AskLoop: digit branches are a list with distinct keys where the source has an unordered map.
- SessionCost.CostSearch.MaximumCost: return counts are a map from menu to count where the source has a tuple with an index, with the same entries.
- ExternalCallDriver.CallLoop: recording of the conversation, its stop reason and the audit trail do not change the outcome and are not modelled.
- ExternalCallDriver.GuardianBudget.Conference: the guardian process that uses the clock is not part of this model.
- AudioRing.StoppedAt: its condition is on the last frame the writer had taken when the flag was set, which its controller cannot see; `AudioRing.QuietStopIsExact` and `AudioRing.LateFrameOvershoots` say what the controller can know.
- AudioRing.StepKeeps: atomics are sequentially consistent steps, one word of a frame each; weak memory, signals and process death are not modelled, nor the oldest-frame search of the prompt mixer.
- PcmFile.ContinuousPcmFile.Append: asks that no append has failed before, as both writers stop at the first failure (`PcmFile.WriteConversation` is one of them; the session audit is the other); file ownership, permissions and free-space accounting are left out, and identifying fields of a context do not change.
- PcmFile.WriteConversation: takes a script of frames with the budget looked up for each; the ring it reads from is `AudioRing`, and the choice of the reason is left out.
- Sha256.Hasher.Update: the byte count wraps at 64 bits as in the source, so the length field is the one of FIPS 180-4 for messages under 2^61 bytes.
- SafetyTimers.MonitorOnPlainHistory: clocks start at zero or later, as the monotonic clock does; readings that run backwards are modelled.
- CallHistory.ConvergesExactly: one call of one device; a document is its normalised identity and the place of its time text in text order, and the digest is taken to be without collisions.
- CallHistory.CallStore.UploadEvents: a batch of one call; a refusal rolls back every call of its batch. Uploads refused for another device's call are not modelled.
- NativeSnapshot.ParseNativeCallSnapshot: numbers are read as a sign and a run of decimal digits; locale grouping is not modelled.
- Storage-fit, menu, barge-in and lifetime policies, readiness after boot and enumeration tables are single branches and would only add easy members.
