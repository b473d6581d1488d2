# Zodex, verified

A Dafny model of the parts of Zodex that keep state and make promises over whole
runs. `dafny verify dfyconfig.toml` checks all of it.

| file | component | what is proved |
|---|---|---|
| `Utf8.dfy`, `OutputBuffer.dfy` | `src/session/output.rs` | However a command's bytes are cut into reads, the decoder delivers the one lossy decoding the Unicode Standard defines; the tail, the spill file and the counters are functions of the history alone. |
| `Processes.dfy`, `StaleProcesses.dfy` | `src/session/process.rs`, `src/local/process_registry.rs` | Against a host that may reuse PIDs, lie in scans and fail at any call: a resolved cleanup report means every recorded identity is dead for good, and every signal directly follows a read that returned exactly the identity it is meant for, which is a recorded one or was found by a scan. Whoever stays is sent TERM and KILL, the report counts the signals, and a call errs only for a reason. |
| `ProcessRegistry.dfy` | `src/local/process_registry.rs` | Whatever fails while the registry is published, the file vouches for every process still owed, so a crash at any point followed by a resolved cleanup leaves none of them alive. |
| `RuntimeGate.dfy` | `src/local/lifecycle.rs`, `src/local/tunnel.rs` | The runtime directory is deleted only when everything named by the records loaded on the way is dead, although a living runtime may rewrite them at any time; and it is deleted if nothing is left. |
| `Sessions.dfy`, `SessionSafety.dfy`, `SessionTheorems.dfy`, `SessionEffects.dfy`, `SessionOwnership.dfy`, `SessionHandles.dfy` | `src/session/mod.rs`, `src/session/lifecycle.rs`, `src/service.rs` | The session manager as a protocol of any number of threads: admission, shutdown barriers, capacity, eviction, kill and timeout, ownership, over every interleaving; what each call brings about; and exactly which insertions can break the promises of ownership and of a clean shutdown. |
| `SessionReap.dfy` | `src/session/shutdown.rs` | Exactly when the evidence that ends a session is true, from what the host does. |
| `PatchRecovery.dfy`, `PatchPlan.dfy` | `src/apply_patch.rs`, `src/apply_patch/recovery.rs` | Which hunks conflict, what becomes of each, why the order of the rest does not matter, and that a recovered hunk leaves the simultaneous replacement whatever order its chunks came in. |
| `Setup.dfy` | `src/local/setup.rs` | Setup is all or nothing under a fault at any step, and goes through exactly when nothing fails. |
| `PublisherWire.dfy` | `src/publisher/server.rs` | The header codec is a bijection on valid headers; sender and receiver agree with one frame format under every schedule of short reads. |
| `Units.dfy` | `src/local/parse.rs` | The parsers accept exactly the declared spellings; printing and parsing are inverse on positive 64-bit values. |
| `Redaction.dfy` | `src/redaction.rs` | No query value survives, nothing else changes, and text stays text. |

`Results.dfy` and `Whitespace.dfy` are shared helpers.

## How the outside is modelled

Everything the program does not decide is a parameter, and the theorems hold for
all values of it. Disk, secret-store and socket failures are functions of a
counter. The host is a function from (tick, PID) to the process there; its only
law is that a (PID, birth) identity, once dead, does not come back. In the
session protocol one action is one stretch under a lock or one atomic access, and
every answer of the operating system is an argument of the action. Strings whose
bytes matter are sequences of bytes, and UTF-8 is section 3 of RFC 3629.

## What turned out not to hold

Each of these has a lemma or method that exhibits it, and a statement of when the
promise does hold.

* Session handles are random and never compared with those in use
  (`src/session/mod.rs:983-991`). If a command is given a handle while
  `remove_session` is between its lookup and its removal, the newcomer is taken
  out of the table and its ownership ends while it runs
  (`RepeatedHandleReleasesRunningCommand`). An insertion can go wrong in this way
  exactly when its handle is under removal (`InsertionGoesWrongIffUnderRemoval`).
  If the handle still names a session, that session is lost, and a shutdown can
  report success while its command runs (`OverwrittenSessionOutlivesShutdown`).
  An insertion can mislead a shutdown exactly when its handle is under removal or
  names an unsettled session (`ShutdownMisleadsIffHandleInUse`).
* The members of a reaped leader's group are drained while they are checked
  (`src/session/shutdown.rs:20-28`). One failed identity read loses the list, and
  the session counts as ended while members live (`FailedReadEndsLiveSession`).
  Followed for any number of rounds, a session is ended over a living member if
  and only if one of the reads those rounds take fails and a member outlives the
  first that does (`FollowToEnd`). On Linux an identity read does not fail; on
  macOS it can.
* Zero has a printed form, `0d` or `0gb`, that the parser refuses
  (`DurationRoundTrip`, `SizeRoundTrip`).
* Redacting twice is not redacting once: the marker ends in a delimiter
  (`RedactingTwiceDiffers`). The two agree if and only if the text has nothing to
  hide, every `key=` in it being the end of a longer name (`KeyRedactedTwice`).

## Model

| member | source | states |
|---|---|---|
| `Utf8.HeadMeaning` | src/session/output.rs:31-67 | The validator's table says about the first character exactly what the arithmetic of RFC 3629 says: convertible, an ill-formed maximal subpart of that length, or a proper prefix that needs more bytes. |
| `Utf8.LossyIsReference` | src/session/output.rs:31-76 | A text is a decoding by replacement of maximal subparts if and only if it is what the decoder releases; so the decoding exists and is unique. |
| `Utf8.DrainAppend` | src/session/output.rs:31-67 | Draining a stream in two pieces, carrying the pending bytes over, is draining it at once. |
| `Utf8.PendingShape` | src/session/output.rs:31-67 | What is held back is empty or a proper prefix of one encoding, at most 3 bytes. |
| `Utf8.RoundTrip` | src/session/output.rs:31-67 | Well-formed input is returned as the text it encodes, with nothing pending. |
| `Utf8.FromUtf8` | src/session/output.rs:35-62 | The validation loop reports the longest valid prefix and what stopped it, as the drain of the slice. |
| `Utf8.StreamingDecoder.Push` | src/session/output.rs:31-67 | The concatenated results are the drain of all bytes pushed so far, and the pending bytes are a proper prefix. |
| `Utf8.StreamingDecoder.Finish` | src/session/output.rs:69-76 | All results together are the lossy decoding of everything pushed, and nothing stays pending. |
| `Utf8.DecodeReads` | src/session/output.rs:31-76 | For every stream and every cutting into reads the text is the unique lossy decoding of the whole stream. |
| `Utf8.WellFormedSplits` | src/session/output.rs:491-500 | A character boundary cuts well-formed bytes into two well-formed parts. |
| `Output.NextCharBoundary` | src/session/output.rs:491-500 | The least character boundary at or after the index. |
| `Output.SuffixAppend` | src/session/output.rs:161-170 | Cutting the retained tail at the next boundary gives the longest character-aligned suffix of the longer history. |
| `Output.AppendTail` | src/session/output.rs:161-170 | The retained text is the longest character-aligned suffix within the limit, and the bytes cut are accounted for. |
| `Output.AppendToSpill` | src/session/output.rs:273-294 | Absent a write failure the file is the longest character-aligned prefix of the history within 16 MiB, and it is marked truncated exactly when the history is longer. |
| `Output.StartSpill` | src/session/output.rs:248-271 | A spill that could be started holds the retained text and the new chunk, capped. |
| `Output.UpdateSpill` | src/session/output.rs:147-159 | The spill exists exactly when the history exceeds the limit and no disk operation has failed; nothing was dropped before it began. |
| `Output.CharCount` | src/session/output.rs:139 | Counting the bytes that start a character counts the characters of the text. |
| `Output.LineCount` | src/session/output.rs:178-184 | Counting newlines, and one for an unterminated last line, counts the lines of the text. |
| `Output.OutputLines` | src/session/output.rs:178-184 | The reported number of lines is the number of lines of the whole history, saturated. |
| `Output.SuffixOfSuffix` | src/session/output.rs:190-196 | The preview cut from the retained tail is the longest aligned suffix of the whole history within both limits. |
| `Output.OutputBuffer.Append` | src/session/output.rs:134-171 | Every field stays the function of the history and of past disk failure that the invariant names; the history grows by the chunk. |
| `Output.OutputBuffer.TakeSnapshot` | src/session/output.rs:173-227 | The snapshot is complete, cut or spilled exactly as the history and past failure dictate; it tells the number of characters and of lines of the whole history and shows its longest tail. |
| `Output.HistoryDeterminesBuffer` | src/session/output.rs:134-171 | Two buffers with the same history, in whatever chunks, agree on text, dropped bytes, totals and spill. |
| `Output.PumpReads` | src/session/output.rs:335-388 | The whole pipeline: for every cutting into reads the buffer has received the encoding of the lossy decoding of the process's output. |
| `Processes.Host.SignalIfMatching` | src/session/process.rs:89-100 | The identity is compared first, and a signal is sent only on a match. |
| `Processes.Host.DeadStaysDead` | src/session/process.rs:82-87 | An identity seen alive once and not there now is dead for good. |
| `Processes.GuardedStep` | src/local/process_registry.rs:246-250 | A read that returned an identity licenses a signal meant for that identity right after it, if it is one the cleanup may signal. |
| `Processes.SignalMatching` | src/session/process.rs:89-100 | A process is signalled exactly when its PID answers with its identity, directly after that answer, and only if it is recorded or was found by a scan of a recorded leader. |
| `Processes.SignalGroupMatching` | src/local/process_registry.rs:246-250 | A group is signalled exactly when its leader's PID answers with the recorded identity, directly after that answer. |
| `Processes.Discover` | src/local/process_registry.rs:236-240 | What a scan of a recorded leader returns may be signalled from then on. |
| `Processes.GuardedJoin` | src/local/lifecycle.rs:233-238 | A cleanup run inside a larger one keeps the larger one's trace licensed. |
| `StaleProcesses.SurveyLiveLeader` | src/local/process_registry.rs:235-253 | Everything the two scans return is followed; the group is sent TERM and the leader followed if it is still there two ticks later, counted as a mismatch if not. |
| `StaleProcesses.SurveyRecord` | src/local/process_registry.rs:228-282 | What one record adds to the survey is decided by who holds the leader's PID; the persisted members are followed in every case. |
| `StaleProcesses.SurveyAll` | src/local/process_registry.rs:224-282 | Every leader that stays was signalled and is followed, every persisted member is followed, and with nothing unresolved every leader is followed or was seen gone. |
| `StaleProcesses.SurveyLeaderless` | src/local/process_registry.rs:255-280 | A leaderless group gets no signal here: it is adopted if and only if a persisted member identity is in it, unresolved if it has members but none such, gone if it is empty. |
| `StaleProcesses.SignalEach` | src/local/process_registry.rs:285-303 | Whoever stays is signalled, nobody is if nobody is there, and the count is the number of signals in the trace. |
| `StaleProcesses.TermAndWait` | src/local/process_registry.rs:285-291 | Whoever was discovered and stays is sent TERM, and nothing else is sent until the wait is over. |
| `StaleProcesses.KillGroups` | src/local/process_registry.rs:293-298 | Every followed leader that stays has its group killed, and the count is the number of signals. |
| `StaleProcesses.CountSurvivors` | src/local/process_registry.rs:306-310 | The count is the number of those that are there when asked. |
| `StaleProcesses.NoneSurvives` | src/local/process_registry.rs:306-310 | No survivor counted means every recorded identity asked is dead for good. |
| `StaleProcesses.WaitForStaleProcesses` | src/local/process_registry.rs:314-335 | Waiting only reads, for any number of polls. |
| `StaleProcesses.TerminateMatchingStaleProcesses` | src/local/process_registry.rs:202-312 | A resolved report means every recorded leader and member is dead at return and ever after; every signal directly follows a read that returned the identity it is meant for, group signals only to recorded leaders, process signals only to recorded identities or to ones a scan of a recorded leader returned. The four counts are the signals in the trace; a recorded identity that stays is sent TERM and later KILL and counted as a survivor; if all are gone the report says so and nothing is sent. It errs only on an unreadable or foreign registry, without a signal, or when a call failed. |
| `ProcessRegistry.Registry.Update` | src/local/process_registry.rs:98-108 | After success memory and file are the next records; after an error the memory is unchanged and the file is the old or the next one, as the fault came before or after the rename; without a fault it succeeds. |
| `ProcessRegistry.Registry.PersistRecords` | src/local/process_registry.rs:360-431 | When it fails, and what the file then holds: absent exactly when there is nothing to record, the old content before the rename, the next after it. |
| `ProcessRegistry.Registry.ProcessStarted` | src/local/process_registry.rs:112-118 | Once it succeeds the file vouches for the process; whatever happens it still vouches for all others. |
| `ProcessRegistry.Registry.ProcessGroupMembersUpdated` | src/local/process_registry.rs:120-133 | Success puts the members on file; failure leaves the leader on file and only the members in doubt. |
| `ProcessRegistry.Registry.ProcessEnded` | src/local/process_registry.rs:135-139 | Only the ended session stops being owed, and after success it is gone from the file. |
| `ProcessRegistry.Fresh` | src/local/process_registry.rs:65-89 | A new registry starts exactly when the identity is not blank and the old file is absent or empty and removable. |
| `ProcessRegistry.CleanUpAfterCrash` | src/local/process_registry.rs:98-139 | For a crash between any two steps, under any publishing faults, a resolved cleanup from the file means every process still owed, with its last published members, is dead; a successor that expects another runtime touches nothing. |
| `RuntimeGate.AwaitDeath` | src/local/tunnel.rs:199-220 | Going on means the identity was seen dead; what is there throughout was sent KILL and is not taken for dead. |
| `RuntimeGate.CleanupStaleTunnelChild` | src/local/tunnel.rs:190-242 | The answer is decided by who holds the PID: signalled if the child was there, and then dead; a mismatch if the PID is another's; gone otherwise. It errs only on a bad record, a failed call, or a child that survived. |
| `RuntimeGate.ResolveRegistry` | src/local/lifecycle.rs:233-249 | A resolved cleanup of the registry as it was loaded means everything in it is dead; with nothing left it is resolved. |
| `RuntimeGate.ResolveOwned` | src/local/lifecycle.rs:222-252 | Success means the tunnel child and everything in the registry, each as loaded on the way, is dead; with nothing left it succeeds. |
| `RuntimeGate.StopRuntime` | src/local/lifecycle.rs:194-218 | TERM is sent exactly if the runtime is there; Graceful means it was gone after the wait, and KILL is sent to one that stays, which is Forced; a PID held by another process is an error, and so is a failed call, nothing else. |
| `RuntimeGate.StopViaLaunchd` | src/local/lifecycle.rs:185-262 | For records that may change at any tick: the directory is deleted exactly on success, and then all that the records loaded on the way name is dead; every signal was licensed. With nothing left it succeeds, and the outcome tells whether anything was recorded. |
| `RuntimeGate.CleanupStaleRuntime` | src/local/lifecycle.rs:339-381 | The same, and the recorded runtime itself is dead too. |
| `RuntimeGate.CleanupPartialStart` | src/local/lifecycle.rs:993-1038 | For records that a runtime only just told to stop may still rewrite: the directory is deleted exactly on success, and then a runtime that was there was sent TERM and all that the records loaded on the way name is dead; every signal was licensed; with nothing left it succeeds. |
| `RuntimeGate.StableRecordsAreDead` | src/local/lifecycle.rs:259-260 | If during the path the registry does not change and the tunnel record at most goes away, everything the directory names when it is deleted is dead. |
| `SessionSafety.InvStep` | src/session/mod.rs:463-478 | Every step of every thread keeps the protocol's invariant, and the shared state only moves forward. |
| `SessionTheorems.NoInsertAfterBarrier` | src/session/mod.rs:741-746 | Once a shutdown has been through the admission lock no call inserts a session, however far it had come, and the table only shrinks. |
| `SessionTheorems.NoAdmissionAfterServiceBarrier` | src/service.rs:77-97 | From the moment a shutdown has passed the service barrier, no call ever comes out of the service gate other than turned away. |
| `SessionTheorems.SnapshotIsComplete` | src/session/mod.rs:748-754 | A shutdown's snapshot contains every session in the table for as long as the shutdown runs. |
| `SessionTheorems.CapacityIsNeverExceeded` | src/session/mod.rs:656-660 | The table never holds more than the maximum number of sessions, in any reachable state. |
| `SessionTheorems.EvictionPicksOldestExited` | src/session/mod.rs:917-938 | At the end of a round every session in the table was asked; the victim has fully exited and has the least last-used value read; without a victim all were running. |
| `SessionTheorems.EvictionTerminates` | src/session/mod.rs:903-941 | Every own step of an eviction lowers a bound that no other thread's step touches. |
| `SessionTheorems.EachRoundShrinksTheTable` | src/session/mod.rs:903-941 | In every run a round begins with no more sessions than its bookkeeping says, and every removal leaves fewer. |
| `SessionTheorems.EvictionLoopIsBounded` | src/session/mod.rs:903-941 | From its start with n sessions in the table the loop takes at most 2n^2 + 10n + 12 steps of its own, in every interleaving. |
| `SessionTheorems.PollVerdict` | src/session/mod.rs:297-337 | One wait iteration without an error: Exited exactly when the leader is reaped and, if the session must exit, its group is gone; Running exactly when the time is up and it need not exit; the reason is Timeout, Killed or Exit in that order; a first poll past the idle deadline times the session out. |
| `SessionTheorems.MustExitIsFinal` | src/session/mod.rs:305-336 | After the must-exit flag is set no later wait answers Running, and an Exited answer means the group is gone. |
| `SessionTheorems.ReasonIsSticky` | src/session/lifecycle.rs:28-36 | A timeout outranks a kill and a kill outranks an exit in every later answer, from the moment the flag was set. |
| `SessionEffects.FlagsAgree` | src/session/mod.rs:230-240 | In every reachable state a session must exit, and is being terminated, exactly when it timed out or was killed. |
| `SessionEffects.KillTakesHold` | src/session/mod.rs:230-240 | From a `kill_process`, or a shutdown's first pass over a session that is not settled, no later wait answers Running, and an Exited answer means the group is gone and the reason is not a plain exit. |
| `SessionEffects.TimeoutTakesHold` | src/session/mod.rs:305-319 | From the first poll past the idle deadline on, that poll included, no wait answers Running, and an Exited answer is a timeout with the group gone. |
| `SessionEffects.ForceTakesHold` | src/session/shutdown.rs:93-120 | A poll after the grace period forces what must exit, a shutdown's second pass what is not settled, and the flag stays. |
| `SessionEffects.ReaperEndsOwnership` | src/session/mod.rs:944-981 | A reaper stops on an error, or when the session is settled and its ownership has ended. |
| `SessionEffects.ReaperStays` | src/session/mod.rs:944-978 | Until then it goes on asking. |
| `SessionEffects.RemovalEndsOwnership` | src/session/mod.rs:885-900 | A session taken out of the table by a removal has its ownership ended by that removal. |
| `SessionEffects.RefusalHasAReason` | src/session/mod.rs:471-477 | A call is turned away at the gates only when one of them is closed, or it names no session. |
| `SessionEffects.GivingUpHasAReason` | src/session/mod.rs:903-941 | An admitted exec call ends in an insertion below capacity, or because every session in the table answered that it is running, asking failed, or the command could not be started. |
| `SessionEffects.LastUsedIsLatest` | src/session/mod.rs:299-299 | A session's last-used value is the time of its latest insertion, write or wait, in every run. |
| `SessionEffects.ProbesWereRead` | src/session/mod.rs:917-930 | Every value an eviction compares was the session's own at some earlier state. |
| `SessionOwnership.OwnStep` | src/session/mod.rs:866-901 | Every step that takes no handle under removal keeps the ownership invariant: released means reaped with no member left. |
| `SessionOwnership.OwnershipEndsAtMostOnce` | src/session/lifecycle.rs:10-26 | In every run, ownership of a session has ended once if it was released and owned, and not at all otherwise. |
| `SessionOwnership.OwnershipEndsLast` | src/session/lifecycle.rs:10-49 | In every run that takes no handle under removal, ownership ends only after the leader is reaped and no group member is left. |
| `SessionHandles.InsertionGoesWrongIffUnderRemoval` | src/session/mod.rs:866-892 | From an insertion on, some continuation breaks the ownership promise if and only if the handle was under removal when it was taken. |
| `SessionHandles.RepeatedHandleReleasesRunningCommand` | src/session/mod.rs:885-892 | Such an insertion is reachable, and ends the ownership of a running command. |
| `SessionOwnership.CleanShutdown` | src/session/mod.rs:850-863 | In every run that takes no handle under removal or of an unsettled session, a successful shutdown means every command ever admitted is reaped with its group, and stays so. |
| `SessionHandles.Prepare` | src/session/mod.rs:463-478 | Undisturbed, and with room, an exec call reaches its insertion through both gates. |
| `SessionHandles.WriteArrives` | src/session/mod.rs:692-717 | Undisturbed, a write reaches the session its handle names, and kills it if it is to. |
| `SessionHandles.ShutdownMisleadsIffHandleInUse` | src/session/mod.rs:656-660 | From an insertion on, some continuation lets a shutdown succeed over an unsettled session if and only if the handle was under removal or named an unsettled session. |
| `SessionHandles.OverwrittenSessionOutlivesShutdown` | src/session/mod.rs:656-660 | Such an insertion is reachable by careful steps. |
| `SessionReap.SessionInner.Sweep` | src/session/shutdown.rs:20-28 | It goes through if and only if the host fails at none of its reads; what is then left out is dead. On failure the list is lost, and that is right if and only if every member is dead by then. |
| `SessionReap.SessionInner.ReusedMeans` | src/session/shutdown.rs:48-51 | The group ID was reused if and only if the first process listed under the leader's PID is not the leader. |
| `SessionReap.SessionInner.ReapExitCode` | src/session/shutdown.rs:12-61 | The exit code is sticky, members only leave after the reap, an ended session stays ended, and members that leave on success are dead. |
| `SessionReap.FollowToEnd` | src/session/shutdown.rs:12-61 | For any number of reaps: all go through if and only if the host fails at none of the reads they take; the session is ended over a living member if and only if some such read fails and a member outlives the first. |
| `SessionReap.GoesThroughIs` | src/session/shutdown.rs:20-28 | Which reads that are is a matter of the members and the host alone. |
| `SessionReap.FailedReadEndsLiveSession` | src/session/shutdown.rs:20-28 | One failed read makes a session count as ended while a member lives. |
| `PatchRecovery.Pass` | src/apply_patch/recovery.rs:79-106 | One tier over the file: no match, the only match, or ambiguity. |
| `PatchRecovery.TierMeans` | src/apply_patch/recovery.rs:108-118 | What each tier overlooks, without trimming: nothing, white space at the end of a line, white space around it. |
| `PatchRecovery.LaxerMatches` | src/apply_patch/recovery.rs:83-87 | A match of a stricter tier is a match of every laxer one. |
| `PatchRecovery.MatchMeans` | src/apply_patch/recovery.rs:89-94 | A pattern matches at a place if and only if the file is cut there into a beginning, a part as long as the pattern and alike line by line, and a rest. |
| `Whitespace.TrimMeans` | src/apply_patch/recovery.rs:116-118 | Two lines trim to the same if and only if they are one text with white space around it. |
| `PatchRecovery.Locate` | src/apply_patch/recovery.rs:79-106 | The place where the strictest tier with any match has its only one, if there is such a place. |
| `PatchRecovery.UniqueStart` | src/apply_patch/recovery.rs:62-77 | The span of the located pattern, which is all the old lines or all but a last blank one. |
| `PatchRecovery.SortSorts` | src/apply_patch/recovery.rs:40-43 | Sorting gives an ordered permutation. |
| `PatchRecovery.OneFileOrder` | src/apply_patch/recovery.rs:40-59 | The same chunks have at most one file order, so every ordering that recovers gives the same sequence. |
| `PatchRecovery.ReorderUniqueNonoverlapping` | src/apply_patch/recovery.rs:10-59 | Recovery succeeds if and only if all chunks have unique disjoint places and are out of order; the result is a permutation in file order, and is not recovered again. |
| `PatchRecovery.SeekFindsLocated` | src/apply_patch/recovery.rs:79-106 | A three-tier left-to-right search from anywhere before the span finds exactly that span. |
| `PatchRecovery.InTurnIsAtOnce` | src/apply_patch/recovery.rs:40-59 | Applying edits one after the other to the changing file is replacing all spans of the original at once. |
| `PatchRecovery.RecoveredHunkApplies` | src/apply_patch/recovery.rs:40-59 | Chunks in file order go through the sequential search, and the outcome is the simultaneous replacement. |
| `PatchPlan.LexicalNormalize` | src/apply_patch.rs:313-325 | The normal form of an absolute path spells out where the path leads in a tree without links. |
| `PatchPlan.NormalFormIsFaithful` | src/apply_patch.rs:313-325 | Two absolute paths have the same normal form if and only if they lead to the same place. |
| `PatchPlan.Patch.PairsAreMatching` | src/apply_patch.rs:244-257 | No hunk is in two replacement pairs. |
| `PatchPlan.Patch.PairsConflictTogether` | src/apply_patch.rs:259-288 | When both halves have one physical key, both are flagged or neither. |
| `PatchPlan.Patch.ConflictMeans` | src/apply_patch.rs:259-288 | A hunk is flagged if and only if it and another, not its partner, name paths (move targets included) whose keys are equal or above or below each other. |
| `PatchPlan.Patch.PartnersMean` | src/apply_patch.rs:244-257 | Partners are a deletion and the addition directly after it, of one normalized path. |
| `PatchPlan.ConflictingHunks` | src/apply_patch.rs:259-288 | The conflict set is exactly the flagged hunks; any two that are not partners and name related paths are both in it. |
| `PatchPlan.ApplyPatch` | src/apply_patch.rs:45-139 | Every hunk is exactly one of applied, failed or folded into the deletion before it, and the report tells which: flagged ones failed, a pair follows its replacement, a first success is applied, a recovered one is applied and retried with its chunks in file order; the lists are in patch order. |
| `PatchPlan.RunHunk` | src/apply_patch.rs:93-138 | A hunk is retried exactly when it failed to match, wrote nothing and is recoverable, and then in the file order of its chunks. |
| `PatchPlan.RecoveryForgetsTheOrder` | src/apply_patch.rs:96-120 | A recovered hunk leaves the file with all places rewritten at once, the same whatever order its chunks came in. |
| `PatchPlan.SurvivorsAreUnrelated` | src/apply_patch.rs:259-288 | The places of two executed operations, pairs fused, are never equal, above or below each other. |
| `PatchPlan.PlacesAre` | src/apply_patch.rs:263-275 | The places of an executed hunk are the keys of every path it, or its partner, names. |
| `PatchPlan.EachActsAlone` | src/apply_patch.rs:42-45 | Every place ends as if its own operation had run alone on the original tree. |
| `PatchPlan.PatchOrderIsIrrelevant` | src/apply_patch.rs:42-45 | Executing the survivors in any order gives the same tree. |
| `Setup.Installation.InstallBundle` | src/local/setup.rs:193-206 | The executable is replaced last: if it changed, the rest of the bundle is the new one, however far the installation got. |
| `Setup.Installation.Install` | src/local/setup.rs:185-209 | It goes through exactly when nothing fails and the bearer is accepted; the config that names the executable is saved after it. |
| `Setup.Installation.Rollback` | src/local/setup.rs:228-258 | It reports no failure exactly when nothing fails, and then all five files and the secret are as in the snapshot; everything not reported is in any case. |
| `Setup.Installation.EnsureBearer` | src/local/setup.rs:312-332 | It succeeds exactly when nothing fails and a bearer to be kept is accepted; the file after success, and whether it was rotated. |
| `Setup.Installation.Commit` | src/local/setup.rs:162-226 | It goes through exactly when nothing fails and the bearer is accepted, and then installs every artefact; an error that could be undone leaves all five files and the secret as they were, and one fault, or a bad bearer, can always be undone; otherwise every artefact that may differ is named. |
| `Setup.Installation.Run` | src/local/setup.rs:55-99 | The same from the caller's side, with the snapshot taken first. |
| `PublisherWire.EncodeHeader` | src/publisher/server.rs:158-180 | Succeeds exactly on a metadata length from 1 to 64 KiB, and then the buffer is the wire format of the header. |
| `PublisherWire.HeaderLayout` | src/publisher/server.rs:173-178 | The header byte by byte: the magic, version 1, no flags, and both lengths with their most significant byte first. |
| `PublisherWire.BigEndianDigit` | src/publisher/server.rs:173-178 | Byte i of a number is its base-256 digit, the most significant first. |
| `PublisherWire.DecodeOfEncode` | src/publisher/server.rs:158-216 | Decoding undoes encoding for every header that can be sent. |
| `PublisherWire.EncodeOfDecode` | src/publisher/server.rs:182-216 | Encoding undoes decoding: accepted bytes are those an encoder writes. |
| `PublisherWire.AcceptedHeaders` | src/publisher/server.rs:182-216 | 24 bytes are accepted if and only if they are the wire format of a sendable header. |
| `PublisherWire.ReceiveDeclaredBundle` | src/publisher/server.rs:568-625 | For every schedule of short reads, success means exactly the declared bytes and then EOF, spooled as they came; absent I/O errors the converse holds. |
| `PublisherWire.StreamBundleFile` | src/publisher/server.rs:315-340 | Only a beginning of the file goes out; success if and only if, absent I/O errors, the file has the declared length, and then all of it went out. |
| `PublisherWire.SubmitRequestFrame` | src/publisher/server.rs:240-289 | A successful sender has written exactly the frame of its metadata and bundle; absent I/O errors it succeeds exactly within the limits and the policy. |
| `PublisherWire.ReadAndValidateMetadata` | src/publisher/server.rs:448-473 | What it accepts is the head of a frame, and absent I/O errors it accepts exactly the admissible frames. |
| `PublisherWire.HandleConnection` | src/publisher/server.rs:373-399 | Success means the stream was one whole frame, delivered as it was; absent I/O errors every admissible frame succeeds. |
| `PublisherWire.FramesAreUnambiguous` | src/publisher/server.rs:158-180 | No frame begins another, so a stream frames at most one request. |
| `PublisherWire.Transfer` | src/publisher/server.rs:240-399 | Sender and receiver together: what was sent is what is received, under every schedule of reads. |
| `Units.ParseMeaning` | src/local/parse.rs:120-186 | The parser returns a value if and only if the text is white space, digits, a unit in any case and white space that denote it within 64 bits. |
| `Units.RefusalMeans` | src/local/parse.rs:131-151 | Which error a well-shaped text is refused with, exactly. |
| `Units.ShortUnits` | src/local/parse.rs:141-143 | The names of a second and of a minute, exactly. |
| `Units.LongUnits` | src/local/parse.rs:144-147 | The names of an hour and of a day, exactly; nothing else is a unit. |
| `Units.SizeUnits` | src/local/parse.rs:175-181 | The names of the size units, exactly. |
| `Units.DurationRoundTrip` | src/local/parse.rs:20-33 | Parsing a printed duration gives it back for every positive 64-bit value, and refuses the printed zero. |
| `Units.SizeRoundTrip` | src/local/parse.rs:75-91 | The same for sizes. |
| `Units.DurationReprint` | src/local/parse.rs:120-152 | Reprinting an accepted duration keeps its value, with the least amount that can express it. |
| `Units.SizeReprint` | src/local/parse.rs:154-186 | Reprinting an accepted size keeps its value, with the least amount that can express it. |
| `Redaction.RedactHides` | src/redaction.rs:7-38 | In the output every token that does not end a longer name is directly followed by the marker. |
| `Redaction.DelimitersAre` | src/redaction.rs:49-58 | The characters that end a value, and those a name is made of. |
| `Redaction.KeptFromDelimiter` | src/redaction.rs:24-34 | The first delimiter is kept, and what follows it is redacted on its own. |
| `Redaction.ValueDoesNotMatter` | src/redaction.rs:18-34 | Two texts that differ only in the value of a parameter give the same output. |
| `Redaction.RedactMeaning` | src/redaction.rs:7-38 | The output is the text with exactly the values of its secrets replaced and every other byte kept in order. |
| `Redaction.RedactQueryParam` | src/redaction.rs:7-38 | For every parameter and replacement the jumping loop takes tokens whole from left to right; the cursor advances, every slice is on a character boundary, and the output is well-formed. |
| `Redaction.ByTokenIsRedact` | src/redaction.rs:13-34 | For a parameter made of name characters, taking tokens whole is the byte-by-byte redaction. |
| `Redaction.RedactApiKeyQueryParams` | src/redaction.rs:3-5 | For the parameter and the marker in use: well-formed output without an exposed key. |
| `Redaction.TwiceIsOnceIffNothingToHide` | src/redaction.rs:7-38 | For every marker that ends in its only delimiter, redacting twice is redacting once if and only if every token in the text is in a longer name. |
| `Redaction.SecondTimeGrows` | src/redaction.rs:26-34 | A second redaction lengthens the text by one byte for each value the first replaced. |
| `Redaction.KeyRedactedTwice` | src/redaction.rs:1-5 | The same condition for the parameter and the marker in use. |
| `Redaction.RedactingTwiceDiffers` | src/redaction.rs:53-58 | What a second redaction makes of a redacted value. |

## Left out

- HTTP and MCP servers, GitHub calls, git, launchd, PTY setup, permissions, ACLs, log text, ANSI stripping, history, UI: I/O plumbing.
- Wall-clock time: deadlines become an arbitrary number of polls or an arbitrary verdict.
- `coordinated_hidden_shutdown`: it clears the runtime state unconditionally and is not one of the three operator-side paths.
- RuntimeGate.StopRuntime: does not claim the outer runtime is dead, because after a Kill the source does not wait again (src/local/lifecycle.rs:208-211).
- RuntimeGate.StopViaLaunchd: models the Unix path; the Windows branches are easier variants of it.
- RuntimeGate.CleanupPartialStart: says nothing about records written after they were loaded, because the source does not load them again before it deletes the directory.
- The temporary file of a registry publication and the JSON inside: the file is its list of records; the extra string fields of a record carry no behaviour.
- `snapshot_descendants_before_termination` and the descendant signals of a shutdown: they do not change which sessions are settled.
- The wording of a snapshot: `TakeSnapshot` returns its parts; the reader's wake-up and the removal of old spill files are plumbing.
- SessionReap.SessionInner.ReapExitCode: does not claim that a scan finds every member, because scans are the host's and the source bounds them.
- The upstream applier: `PatchPlan.PatchOrderIsIrrelevant` assumes each operation changes only its own places and looks only at those and at what is above and below them; `PatchRecovery.RecoveredHunkApplies` assumes its search is strictest tier first and left to right, and leaves out its further Unicode normalisation tier.
- Splitting a file into lines and CRLF: the recovery works on lines.
- Symbolic links: the physical key of a path is a parameter, and that both halves of a pair share it is a hypothesis where it is used.
- The length test on an observability bearer and the download and checksum of a tunnel client: parameters of the setup.
- The acknowledgement bytes of the publisher and the JSON of its metadata: the decision is a parameter both sides share.
- Update-claim preferences, skill scanning and YOLO-mode checks: smaller state machines that would add easier members.
