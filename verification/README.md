# bot-hq: verified models of the host's state machines

bot-hq drives several AI subprocesses through one host. This project models the
parts of the host that are state machines or transformations, and proves what
they keep over every run, every history of calls or every input.

| files | what they model |
|---|---|
| `Supervisor.dfy`, `SupervisorRuns.dfy`, `SupervisorTicks.dfy`, `SupervisorReports.dfy` | the retry supervisor that puts a sequence of child processes behind one stable pair of channels |
| `Activity.dfy`, `ActivityRuns.dfy`, `LapWaiter.dfy` | the per-session activity tracker, its announcements, and the two waiters that poll it |
| `DataDir.dfy`, `DataDirCrash.dfy`, `DataDirFold.dfy`, `DataDirContent.dfy`, `DataDirSurvival.dfy`, `DataDirWindows.dfy`, `DataDirSetup.dfy`, `DataDirPlain.dfy`, `DataDirReport.dfy`, `DataDirOutcome.dfy` | set-up, repair and one-time migration of the data directory as atomic file operations on a tree |
| `Watchdog.dfy`, `WatchdogRuns.dfy` | the stall and idle watchdog loop |
| `Scrollback.dfy` | the bounded terminal scrollback |
| `Json.dfy`, `BodyNormalizer.dfy`, `BodyInstructions.dfy`, `ProxyRoute.dfy` | the model proxy: hoisting system messages, and carrying the upstream URL in the request path |
| `ContextMeter.dfy`, `ContextRuns.dfy`, `StreamContent.dfy` | stream translation and the context-window meter |
| `Mentions.dfy` | `@slug` mentions in a user's message |
| `Heartbeat.dfy`, `HeartbeatSilence.dfy` | the plugin heartbeat watcher, and when a silent plugin is noticed |
| `Utf8.dfy` | UTF-8 (RFC 3629, sections 3 and 4) and the character-boundary search |
| `AgentEvents.dfy` | the events an agent's output becomes, shared by translator, supervisor and watchdog |
| `Options.dfy`, `Bytes.dfy`, `Whitespace.dfy` | small shared types; trimming and number parsing |

Loops and objects of the program are methods and classes; each is proved equal
to a specification function, and the theorems about that function say what it
computes in other terms: by the history of calls, by positions in the input, or
by the names, texts and numbers the program is documented with. A
nondeterministic environment (what arrives, when a timer fires, whether a relay
or a respawn succeeds, where a crash falls) is a script of ticks, calls,
samples or an operation count, and every theorem holds for all of them.

## Where the code departs from what it says

- `RetryPolicy::backoff` documents `base * 2^(n-1)`, capped. The shift stops
  growing at 16, so the documented value is missed past attempt 17 when the
  capped shift is still below the cap (`SupervisorRuns.BackoffMeetsPromise`,
  and one policy and attempt in `SupervisorRuns.BackoffMissesPromise`).
- The comment at the `result` arm of `translate` says a turn cannot inherit the
  previous turn's reading. It does when the previous `result` had no
  `modelUsage` and a reading was carried
  (`ContextRuns.InheritsExactlyAfterUnmetered`, `ContextRuns.StaleReadingShown`).
- `init` documents that an older install is migrated and reported as Repaired.
  One that crashes after its last old sign is moved or dropped and before the
  schema is recorded is welcomed as a first run when it starts again
  (`DataDirOutcome.OldInstallWelcomedAsNew`, `DataDirOutcome.WelcomedAsNewShown`).

## Worth knowing, though nothing promises otherwise

- `migrate_legacy_layout` documents that a crash half-way heals on the next
  launch, and it does (`DataDirFold.MigrationCrashIsHarmless`).
  `migrate_agent_custom_instructions`, which runs in the same start-up, promises
  only to be a no-op once the legacy files are gone. A crash inside it does not
  always heal: between an append and the removal of the file the section is
  appended twice, and between a removal that empties its directory and the
  pruning of it the directory stays for good. `DataDirFold.CrashConvergence`
  proves these are the only two windows, `DataDirWindows` reaches both, and
  `DataDirSurvival` shows that nothing is lost in either.
- An activity event fires on a change of any participant's flag, as
  `src/core/activity.rs:412-415` says. A slug outside the roster is not in the
  payload, so its edge can send the last payload again; callers hand roster
  slugs (`src/core/activity.rs:198-201`), and then it cannot happen
  (`ActivityRuns.RepeatsComeFromForeignEdges`, `ActivityRuns.NoRepeatedPayload`).
- A plugin that never answers is not reported while every sweep falls inside
  the window of its latest ping, which two loops of one period can go on doing
  (`HeartbeatSilence.PhaseDecides`).

## Model

| member | source | states |
|---|---|---|
| Supervisor.Supervise | src/agents/spawn.rs:921-1104 | the supervisor, written as its nested loops, computes exactly the run of the step system on which the theorems below are stated |
| Supervisor.BridgeIncarnation | src/agents/spawn.rs:960-1042 | the inner loop follows the run until the child's event channel closes, a kill, a caller teardown or a failed relay, and leaves in no other phase |
| Supervisor.WaitAndRespawn | src/agents/spawn.rs:1048-1086 | the backoff wait and respawn follow the run; it comes out with a nudge pending for a fresh child, or ended |
| SupervisorRuns.RelayedOnceInOrder | src/agents/spawn.rs:942-1005 | over any number of respawns, the user lines offered to the children, in order, then at most one message lost with a deaf child, then what waits, is exactly what the caller sent; a loss ends the run |
| SupervisorRuns.ForwardedInOrder | src/agents/spawn.rs:1006-1040 | the caller's stream without the supervisor's own events, then what is queued, is everything the children produced except `Exited`; all of it when the run ended without a kill or teardown |
| SupervisorRuns.NoOrphans | src/agents/spawn.rs:954-1005 | every earlier child is closed and drained; when the supervisor has ended, so is the last one, or it was killed |
| SupervisorRuns.RespawnsAreJustified | src/agents/spawn.rs:1010-1086 | each respawn answers a transient error in the last turn of the child before, resumes the latest session id announced, and is offered a nudge naming that very status before any other line, once |
| SupervisorRuns.SpawnsBounded | src/agents/spawn.rs:1019-1059 | with C clean turns at most 1 + maxRetries * (C + 1) children are spawned; the counter is the number of retries since the last clean turn, never above the budget, positive exactly when the last health announced is Retrying; the delay is that retry's backoff |
| SupervisorRuns.GivesUpOnlyWhenSpent | src/agents/spawn.rs:1088-1099 | giving up means a transient error with maxRetries retries since the last clean turn |
| SupervisorRuns.EndingIsExact | src/agents/spawn.rs:1044-1102 | when the drained channel closes, the last turn's error and the retries since the last clean turn decide: retry iff transient and budget left, give up iff transient and none left, finish iff not transient |
| SupervisorRuns.KillIsFinal | src/agents/spawn.rs:961-966 | after a kill, whatever arrives, nothing more is relayed or forwarded, at most one child is still spawned, and four further ticks end the run |
| SupervisorRuns.InterruptsPreempt | src/agents/spawn.rs:960-980 | while n interrupts wait and no kill arrives, the next n steps hand exactly those, in order, to the child that is live, and relay no message and take no event |
| SupervisorRuns.NoSpinning | src/agents/spawn.rs:942-1086 | the number of busy steps is bounded by what arrived plus one retry cycle per respawn: no closed channel makes the loop spin |
| SupervisorReports.NoticesAreExact | src/agents/spawn.rs:1074-1100 | a run that spent its budget says so once, last of all, with the budget and the status of the last error; one whose respawn was refused says that once, last of all, with that status and the error of the very refusal; every other run says neither |
| SupervisorReports.HealthIsExact | src/agents/spawn.rs:1019-1059 | Retrying is announced when exactly the events of the children so far have gone out and the last of them failed with one of the eight retryable statuses; Running directly before each clean turn that follows retries, before no other event; nothing else is said about health |
| SupervisorReports.EndsFor | src/agents/spawn.rs:960-1104 | every end shows its reason: a kill sent; a caller gone with nothing waiting; a deaf child, killed; a drained child whose last turn was not retryable; or one whose last turn was, with the budget spent since the last clean turn; or a refused respawn |
| SupervisorTicks.TickIsBiased | src/agents/spawn.rs:960-1042 | one tick with a child bridged, for every run: kill, then one interrupt, then one message (a child that does not take it ends the run), then a caller gone, and only then one event or the classification of a silent closed child |
| SupervisorTicks.WaitIsExact | src/agents/spawn.rs:1060-1086 | during the backoff nothing is relayed, heard or said, a kill before the sleep is over ends the run unspawned, and the respawn replaces the child by a fresh one or ends the run |
| SupervisorTicks.ArrivalsAreTaken | src/agents/spawn.rs:884-886 | over every run the messages counted as sent are those of the ticks before the end of the run and of their channel, in order; the children's events those of the ticks at which the live one was open; kills and closed channels are remembered |
| SupervisorTicks.InterruptsInOrder | src/agents/spawn.rs:967-979 | the interrupts taken, then those waiting, are those sent; the children got some of the former, in order, and no others |
| SupervisorRuns.BackoffMeetsPromise | src/agents/spawn.rs:863-870 | the computed delay equals the documented capped doubling iff the attempt is at most 17, the base is zero or the capped shift reaches the cap; it never exceeds it |
| SupervisorRuns.BackoffMissesPromise | src/agents/spawn.rs:863-870 | with base 1 and cap 200000, attempt 18 waits 65536 where the documented schedule says 131072 |
| SupervisorRuns.BackoffGrows | src/agents/spawn.rs:865-870 | later retries never wait less |
| Activity.ActivityTracker.RecomputeLocked | src/core/activity.rs:390-454 | the in-place recompute is the specified one, whose derived state is that of `StateIsExact`: auto-clears a settled cancel, records idleness, derives, and sends exactly when the specification does |
| Activity.ActivityTracker.SetBusySlug | src/core/activity.rs:202-206 | the whole new tracker state after a busy edge |
| Activity.ActivityTracker.SetCancelling | src/core/activity.rs:219-229 | the whole new tracker state; a new cancel forgets earlier idleness before the recompute |
| Activity.ActivityTracker.SetPaused | src/core/activity.rs:248-252 | the whole new tracker state after latching or releasing the pause |
| Activity.ActivityTracker.Refresh | src/core/activity.rs:271-274 | the whole new tracker state after an outside flip of `awaiting` |
| Activity.ActivityTracker.HoldsWakes | src/core/activity.rs:260-267 | wakes are held iff the derived state is Cancelling or Paused |
| ActivityRuns.ChangedMeansBusySetsDiffer | src/core/activity.rs:117-132 | the two-way comparison with absent read as false is inequality of the sets of busy slugs |
| ActivityRuns.AnnouncementsAreTheChanges | src/core/activity.rs:412-453 | over every history of calls and outside flips, what was sent is the trace of observations after each call with its repetitions removed |
| ActivityRuns.LastAnnouncedIsCurrent | src/core/activity.rs:406-417 | after each call the remembered pair is the derived state and busy set, and one event went out iff that pair moved |
| ActivityRuns.PayloadListsBusyPositions | src/core/activity.rs:431-452 | `busy_slots` is the strictly increasing list of exactly the busy roster positions, and the two frozen booleans are its projections |
| ActivityRuns.StateIsExact | src/core/activity.rs:63-76 | after any history, by its calls alone: Cancelling iff a cancel was called, not called off, and every call since found somebody busy; Paused iff not that and the last pause call paused; AwaitingUser iff neither and the last flip said so, even while somebody is busy; else Busy iff somebody is |
| ActivityRuns.LastAnnouncementIsExact | src/core/activity.rs:406-453 | after any call the last event sent carries that state and lists exactly the roster positions whose last busy call said busy |
| ActivityRuns.PayloadsDistinguish | src/core/activity.rs:418-452 | two payloads are equal iff their states and on-roster busy sets are |
| ActivityRuns.RepeatsExactly | src/core/activity.rs:412-452 | over every history, a call sends the last payload again iff it is a busy edge of a slug outside the roster that leaves the announced state as it was |
| ActivityRuns.RepeatsComeFromForeignEdges | src/core/activity.rs:412-452 | a history has two equal payloads in a row iff one of its calls is such an edge |
| ActivityRuns.RepeatedPayloadShown | src/core/activity.rs:412-452 | one roster participant busy, then one outsider: the same payload twice |
| ActivityRuns.NoRepeatedPayload | src/core/activity.rs:412-453 | when every call names a roster slug, no two consecutive payloads are equal |
| ActivityRuns.PauseHolds | src/core/activity.rs:238-252 | from a pause call to the next release the derived state is Cancelling or Paused, and it is Paused only then |
| ActivityRuns.CancelNeedsABusyAgent | src/core/activity.rs:391-405 | Cancelling is derived only while some participant is busy |
| ActivityRuns.SettledStaysSettled | src/core/activity.rs:403-405 | once it is gone, Cancelling does not return without a new cancel |
| ActivityRuns.IdleProofIsSinceThisCancel | src/core/activity.rs:219-236 | `idled_since_cancel` holds iff some call since the last cancel, that call's own recompute included, saw nobody busy |
| ActivityRuns.FlagsAreLastCalls | src/core/activity.rs:202-206 | a participant reads busy iff the last busy call that named it said so |
| ActivityRuns.StopOrderMatters | src/core/activity.rs:243-247 | from every state that is busy, unpaused and not cancelling, cancel then pause announces Cancelling alone, and pause then cancel announces Paused and then Cancelling |
| LapWaiter.AwaitLapEnd | src/core/activity.rs:345-366 | over any sampled trace with a rising clock: true at the first sample that is awaiting or closes an all-idle run spanning `quiet`, false only at or past the deadline with no such sample before |
| LapWaiter.AwaitBothIdle | src/core/activity.rs:375-388 | true at the first idle sample, false only at or past the deadline with no idle sample before |
| LapWaiter.LapEndOutlastsTheGap | src/core/activity.rs:333-366 | a lap that ends without a halt had every sample of the last `quiet` idle, so a shorter hand-over gap never ends it |
| LapWaiter.LapNotBeforeIdle | src/core/activity.rs:340-388 | with `awaiting` never set, the lap never ends on an earlier sample than the plain idle wait |
| DataDirSetup.DataDirectory.Init | src/paths.rs:231-306 | the in-place set-up leaves exactly the tree of the operation sequence and returns exactly FirstRun, Existing, Repaired with its slots, or the failure |
| DataDirSetup.DataDirectory.MigrateLegacyLayout | src/paths.rs:373-442 | the gated move of an old layout is its operation sequence, stopping at the first refusal; `moved` says whether anything moved |
| DataDirSetup.DataDirectory.LayOut | src/paths.rs:245-265 | migration, directories and stamp are their operation sequence, stopping at the first refusal |
| DataDirSetup.DataDirectory.FoldAgent | src/paths.rs:319-354 | one agent's fold is its operation sequence, and reports its slot iff there was a readable legacy file |
| DataDirSetup.DataDirectory.Seed | src/paths.rs:276-290 | pruning the agents directory and filling missing slots always succeeds and names the slots filled |
| DataDirSetup.SecondInitFindsExisting | src/paths.rs:221-306 | a second set-up changes nothing; it returns Existing after a success and fails where the first failed |
| DataDirSetup.FinalTree | src/paths.rs:245-290 | a successful set-up leaves the layout in place, no readable legacy file, no empty agents directory and both slots filled |
| DataDirSetup.GateClosed | src/paths.rs:373-376 | at the current schema the migration does nothing to any tree |
| DataDirFold.CrashConvergence | src/paths.rs:316-442 | stopped after any number of file operations and run again, set-up ends in the tree of the uninterrupted run, with the same success or failure, for every starting tree, iff the last operation was not an append, nor a removal that emptied its directory |
| DataDirFold.MigrationCrashIsHarmless | src/paths.rs:360-442 | stopped anywhere in the migration, directory creation or stamping, set-up always converges |
| DataDirFold.InitIsIdempotent | src/paths.rs:221-306 | for every starting tree, a second set-up leaves the tree as it is and succeeds or is refused as the first was |
| DataDirFold.StopsWhole | src/paths.rs:231-442 | where a set-up ends, finished or refused, is never inside one of the two windows |
| DataDirWindows.AppendWindow | src/paths.rs:333-348 | from every settled tree with a user-edited file, the stop after its append makes the next run fold the same body in twice |
| DataDirWindows.PruneWindow | src/paths.rs:349-354 | from every settled tree whose untouched file is alone in its directory, the stop after its removal leaves the empty directory through every later run |
| DataDirWindows.AppendWindowShown | src/paths.rs:333-348 | one tree and one stop in the first window |
| DataDirWindows.PruneWindowShown | src/paths.rs:349-354 | one tree and one stop in the second |
| DataDirOutcome.RerunReportsFirstRun | src/paths.rs:231-265 | for every start and stop, a rerun reports a first run iff set-up succeeds, no schema was recorded, the stop came before the stamp, and every sign of an old install that was there had been moved or dropped |
| DataDirOutcome.OldInstallWelcomedAsNew | src/paths.rs:221-243 | for an old install that is so exactly at the stops past its last sign and before the stamp, and there the uninterrupted run would have said Repaired |
| DataDirOutcome.MigrationIsReported | src/paths.rs:291-300 | an old install whose signs can all be cleared is reported as Repaired when nothing interrupts |
| DataDirOutcome.WelcomedAsNewShown | src/paths.rs:235-243 | an install holding only `projects/`, stopped after its fourth operation: Repaired without the crash, FirstRun with it |
| DataDirOutcome.StampDecidesFirstRun | src/paths.rs:237-300 | a fresh install crashed and started again reports a first run iff the crash came before the schema was recorded |
| DataDirCrash.LayoutRestarts | src/paths.rs:373-442 | the existence-guarded moves, restarted after any prefix, end where they would have |
| DataDirContent.NothingIsLost | src/paths.rs:386-433 | after a successful set-up every file other than the version markers, the consolidated file and readable legacy bodies ends at its one destination with the same bytes |
| DataDirContent.NothingIsInvented | src/paths.rs:386-433 | every other file present afterwards was a file before, at a path whose destination this is |
| DataDirContent.DestIsInjective | src/paths.rs:386-423 | no two files are moved to the same path |
| DataDirPlain.EditedTextSurvives | src/paths.rs:333-354 | at every point between two file operations, a text in an agent's own file that is neither blank nor the shipped one is the whole of that file, at its old place or its new one, or stands word for word, but for space at its end, under the heading that names its file in `custom-instructions.md` |
| DataDirPlain.ConsolidatedText | src/paths.rs:316-356 | a successful set-up leaves `custom-instructions.md` as it was, or as shipped, followed by the heading and text of each edited file, Brian's first; one that is not text stays, and then there was no such file |
| DataDirPlain.DestIsPlain | src/paths.rs:386-428 | which eleven root entries of an old directory move, where each goes, and that one whose place is taken stays |
| DataDirPlain.SchemaIsExact | src/paths.rs:213-218 | the recorded version is the number in the marker, without the space around it, if it fits 32 bits; anything else reads as none |
| DataDirPlain.LeavesThisTree | src/paths.rs:245-290 | a successful set-up leaves the five folders, the marker `2`, no old marker and no old root entry unless its place was taken, no file of an agent to fold, no empty agents folder, both slots, and the shipped general rules where there were none |
| DataDirReport.SucceedsExactly | src/paths.rs:231-356 | set-up succeeds iff no file stands where it needs a folder, no folder where an old directory's markers belong, and no edited text has to be added to a consolidated file that is not text |
| DataDirReport.ReportIsExact | src/paths.rs:235-305 | for every directory: Failed iff refused; FirstRun iff no version is recorded and no sign of an old install is there; else the list of what was folded, seeded and moved, each named by what stood there before, or Existing when it is empty |
| DataDirSurvival.NothingIsLostMeanwhile | src/paths.rs:316-433 | at every point between two file operations each file that set-up does not consume is whole at its old path or its destination |
| DataDirSurvival.NothingIsLostWhenRefused | src/paths.rs:231-433 | the same wherever a set-up ends, refused ones included |
| Watchdog.SweepAgents | src/core/watchdog.rs:221-238 | the silence check over the agents updates the reported health as specified and says whether any pump is alive |
| Watchdog.RunStallWatchdog | src/core/watchdog.rs:208-360 | the loop follows the run of polls and ends right after the first poll with no live agent |
| WatchdogRuns.WatchdogIsExact | src/core/watchdog.rs:246-354 | chip iff idle for 90 seconds with a prompt sent, nothing pending and no halt in force; nudge iff chip, first for this prompt, addressee neither dead, retrying nor stalled, still idle and unheld at the send; halt iff chip after this prompt's nudge, still idle and unheld |
| WatchdogRuns.SlotIsExact | src/core/watchdog.rs:325-347 | the halt slot is filled iff somebody, or an earlier halt of the watchdog, filled it and nothing has cleared it since |
| WatchdogRuns.HealthIsKept | src/core/watchdog.rs:93-106 | what one poll found about health, with the reports since, is what the next silence check starts from |
| WatchdogRuns.SinceIsTheStart | src/core/watchdog.rs:247-252 | the loop-local start time is that of the longest run of idle polls ending now |
| WatchdogRuns.NudgedAtMeans | src/core/watchdog.rs:316-323 | the remembered count equals the current one iff some earlier poll nudged for this prompt |
| WatchdogRuns.OneNudgePerPrompt | src/core/watchdog.rs:127-129 | two nudges are for different, growing prompt counts; no poll both nudges and halts |
| WatchdogRuns.HaltsAreSeparated | src/core/watchdog.rs:325-347 | between two halts something clears the halt slot |
| WatchdogRuns.SweepIsExact | src/core/watchdog.rs:93-106 | Retrying and Dead are never overridden, absent agents are not touched, and any other live agent is Stalled iff busy, with no tool in flight and silent for more than 90 seconds; one no longer so is Running again |
| Scrollback.ScrollbackBuffer.Append | src/core/terminal.rs:62-77 | the buffer keeps standing for the unbounded log: it holds the last `cap` bytes of it and counts all of it |
| Scrollback.ScrollbackBuffer.EndOffset | src/core/terminal.rs:80-82 | the end offset is the number of bytes ever appended |
| Scrollback.ScrollbackBuffer.Snapshot | src/core/terminal.rs:85-87 | what is retained is the log's last `cap` bytes |
| Scrollback.ScrollbackBuffer.Since | src/core/terminal.rs:89-94 | the log from the offset or the oldest retained byte, whichever is later |
| Scrollback.AppendStandsFor | src/core/terminal.rs:62-77 | one append, for every capacity including zero, keeps a ring standing for its log and never drains more than it holds |
| Scrollback.PollGetsTheTail | src/core/terminal.rs:44-46 | a reader polling from its last end offset gets the last `cap` bytes of what arrived since |
| Scrollback.ReaderRebuildsTheLog | src/core/terminal.rs:44-46 | such a reader rebuilds the whole log iff at most `cap` bytes arrive between any two polls, however they are chunked |
| BodyNormalizer.NormalizeMessagesBody | src/agents/llm_proxy.rs:287-326 | the retain loop and merge compute the specified rewrite |
| BodyNormalizer.ExtractText | src/agents/llm_proxy.rs:328-350 | the loop over the blocks computes the text that `InstructionsArrive` describes |
| BodyNormalizer.MergeIntoSystem | src/agents/llm_proxy.rs:352-372 | only `system` changes, and only when there is text to merge |
| BodyNormalizer.ConversationIsKept | src/agents/llm_proxy.rs:308-320 | no `role: "system"` entry is left, and entry k of the result is the k-th entry that was not one, unchanged |
| BodyNormalizer.TouchedOnlyWhenNeeded | src/agents/llm_proxy.rs:281-306 | a body changes iff it has a system entry, so a second pass changes nothing |
| BodyNormalizer.OtherKeysAreKept | src/agents/llm_proxy.rs:308-321 | every key but `messages` and `system` keeps its presence and value |
| BodyInstructions.InstructionsArrive | src/agents/llm_proxy.rs:281-372 | for every body, by its fields alone: the texts of exactly the system entries that say something, in order and with blank lines between, end up behind a string `system`, in a new text block of a list, or as the field; an entry says its string, or the texts of its blocks whose type is absent, no string or `text`, a line each |
| BodyInstructions.ConversationStays | src/agents/llm_proxy.rs:308-320 | what stays in `messages` are exactly the entries whose role is not `system`, unchanged and in order |
| BodyInstructions.SameInstructions | src/agents/llm_proxy.rs:281-372 | read with blank lines between its pieces, the request says the same system text (the field, then the system entries) before and after, and afterwards the field says all of it |
| BodyNormalizer.SystemSurvives | src/agents/llm_proxy.rs:352-372 | the old `system` is kept at the front of the new one iff it is a string, an array or absent, or there was nothing to hoist |
| ProxyRoute.EncodeHex | src/agents/llm_proxy.rs:374-381 | the two pushes per byte compute the encoding |
| ProxyRoute.DecodeHex | src/agents/llm_proxy.rs:383-397 | the pairwise loop with its refusals computes the decoding |
| ProxyRoute.HexRoundTrip | src/agents/llm_proxy.rs:374-397 | decoding the encoding of any non-empty text gives it back |
| ProxyRoute.HexDecodeIsExact | src/agents/llm_proxy.rs:383-397 | a segment decodes to a text iff, lower-cased, it is that non-empty text's encoding |
| ProxyRoute.RoutesBack | src/agents/llm_proxy.rs:123-191 | for every base URL, space around it and slashes at its end or not, and every suffix, a request on the proxied URL is forwarded to the base without either, then the suffix; with no proxy the trimmed base is used itself; none or only space sets nothing |
| ProxyRoute.ForwardIsExact | src/agents/llm_proxy.rs:180-191 | any request path goes to the upstream its first segment spells, less the slashes at its end, one slash and all that follows the segment; iff the segment spells none, it is a bad gateway |
| ProxyRoute.HexTextIsExact | src/agents/llm_proxy.rs:374-381 | byte k is digits 2k and 2k+1 of `0123456789abcdef`, high half first |
| ProxyRoute.DigitsAreExact | src/agents/llm_proxy.rs:391-394 | a byte is read as digit n iff it is the n-th of `0123456789abcdef` or of `0123456789ABCDEF` |
| Whitespace.TrimIsTheCore | src/agents/llm_proxy.rs:127 | trimming takes the space around a text and nothing of the text |
| ContextMeter.Translate | src/agents/events.rs:80-167 | the events one stream event gives rise to and the carry it leaves |
| ContextMeter.PumpEvents | src/agents/events.rs:10-50 | the reader sends exactly what the parseable lines say, in order: all of it, or the first events up to the one the receiver no longer took |
| StreamContent.EverythingSaidIsHandedOn | src/agents/events.rs:80-167 | over any output, what is handed on stands one for one, in order, for its session starts, text blocks, tool calls, tool results and results, each with its own fields; a result is an error iff it says so or carries a status; nothing else is handed on |
| ContextRuns.FiguresAreExact | src/agents/events.rs:219-241 | a prompt size is the 64-bit sum of `input_tokens`, `cache_read_input_tokens` and `cache_creation_input_tokens`, a session total that of the three camel-case counts, a window is `contextWindow`; each counts iff it is an integer that fits 64 bits |
| ContextRuns.PrimaryIsFound | src/agents/events.rs:242-263 | an entry is chosen iff one has a positive window; it has maximal cumulative usage among those, the last of equals |
| ContextRuns.MeterIsExact | src/agents/events.rs:217-319 | the meter shows a figure iff there is a prompt size and a primary entry whose window it fits within 5 percent, and the figure is those two |
| ContextRuns.MeterIsBounded | src/agents/events.rs:274-318 | a shown figure has a positive window and at most 1.05 times it |
| ContextRuns.VerdictIsExact | src/agents/events.rs:249-318 | each verdict holds iff its own operand is missing or implausible, and the operands that did arrive are the primary entry's name and window and the prompt size |
| ContextRuns.CarryIsLatest | src/agents/events.rs:91-96 | the carry is the usage of the last assistant event that reported one with no metered result since, and empty iff there is none |
| ContextRuns.TurnPerResult | src/agents/events.rs:136-163 | over any stream each result completes exactly one turn, in order, and no other event does |
| ContextRuns.NumeratorIsLatestPrompt | src/agents/events.rs:144-155 | each turn's numerator is the token sum of the latest assistant usage since the last metered result, and is there iff that exists and the result names a window |
| ContextRuns.TurnSumIsIgnored | src/agents/events.rs:144-149 | changing any result's own `usage` changes nothing that is emitted |
| ContextRuns.StatusEitherWay | src/agents/events.rs:321-330 | an error status reads the same as a number and as decimal text, and is taken iff it fits 16 bits |
| ContextRuns.StatusIsExact | src/agents/events.rs:321-330 | a status is taken iff it is an integer of 16 bits, or text that without the space around it is digits, a plus sign before them or not, of such a value |
| ContextRuns.InheritsExactlyAfterUnmetered | src/agents/events.rs:144-155 | a turn without assistant usage reports NoUsage iff the previous result was metered or nothing was carried |
| ContextRuns.StaleReadingShown | src/agents/events.rs:152-155 | a stream on which the previous turn's reading is reported as current |
| Mentions.ParseMentionSlugs | src/core/mentions.rs:45-71 | the loop over match positions computes the specified list |
| Mentions.MentionMeans | src/core/mentions.rs:48-63 | a character starts a mention of a slug iff it is an `@` not following a letter or digit and the slug is the lower-cased run of slug characters after it less its trailing dashes |
| Mentions.SlugCharsAreExact | src/core/mentions.rs:53-59 | the characters of a slug are the ASCII digits and letters and the dash |
| Mentions.FoldingIsExact | src/core/mentions.rs:62 | folding takes each ASCII capital to its small letter and leaves every other character |
| Mentions.ParsedIsExact | src/core/mentions.rs:40-71 | exactly the slugs some position mentions, without repeats, each non-empty, lower case and without a trailing hyphen |
| Mentions.FirstOccurrenceOrder | src/core/mentions.rs:40-44 | slugs come in the order of their first mentions |
| Mentions.ParsedConcat | src/core/mentions.rs:48-69 | texts set apart by a separator summon the first's slugs and then the second's new ones |
| Mentions.RoundTrip | src/core/mentions.rs:27-35 | a list printed as `@a @b ...` reads back as itself iff it is a list of distinct valid slugs |
| Heartbeat.HeartbeatWatcher.RegisterPlugin | src/plugins/heartbeat.rs:71-74 | the whole new table; a known plugin keeps its state |
| Heartbeat.HeartbeatWatcher.UnregisterPlugin | src/plugins/heartbeat.rs:77-80 | the whole new table, without the plugin |
| Heartbeat.HeartbeatWatcher.NotePingSent | src/plugins/heartbeat.rs:83-88 | the whole new table; only a known plugin's ping time changes |
| Heartbeat.HeartbeatWatcher.NotePongReceived | src/plugins/heartbeat.rs:91-98 | the whole new table; a known plugin is fresh again |
| Heartbeat.HeartbeatWatcher.SweepAll | src/plugins/heartbeat.rs:104-129 | visiting plugins in any order gives the specified table and reports exactly the newly crashed, each once |
| Heartbeat.HeartbeatWatcher.StatusOf | src/plugins/heartbeat.rs:131-134 | a status for exactly the watched plugins, that of the table |
| Heartbeat.StatusIsExact | src/plugins/heartbeat.rs:28-57 | over any history status and miss count agree, and the count is that of the pings found late since the last answer, up to three |
| Heartbeat.CrashIsThirdMiss | src/plugins/heartbeat.rs:110-124 | a sweep reports a plugin iff it finds its third late ping since the last answer |
| Heartbeat.CrashReportsAreSeparated | src/plugins/heartbeat.rs:113-120 | two reports of a plugin have a pong or an unregistration between them |
| Heartbeat.CrashedWasReported | src/plugins/heartbeat.rs:100-120 | a plugin with three late pings was reported, with no answer since |
| Heartbeat.MissesAreOfPings | src/plugins/heartbeat.rs:83-118 | late pings never outnumber pings sent, and are fewer while one is pending |
| Heartbeat.ThreeSilentRoundsCrash | src/plugins/heartbeat.rs:10-14 | three pings in a row, each followed by a sweep past the window and no answer, crash a registered plugin and report it |
| HeartbeatSilence.SilenceIsReported | src/plugins/heartbeat.rs:100-129 | a plugin that never answers is reported iff three of its pings are each found late by a sweep before the next ping |
| HeartbeatSilence.SilenceIsShown | src/plugins/heartbeat.rs:100-134 | and its status is that of the number of such pings |
| HeartbeatSilence.PhaseDecides | src/main.rs:580-602 | with pings and sweeps at one period, a silent plugin is reported iff sweeps fall outside the window of the latest ping and three rounds have passed; otherwise it shows as healthy for every number of rounds (delays below the period are timelines) |
| Utf8.EncodingIsExact | src/text.rs:16-40 | the four forms of RFC 3629, section 3: how many bytes a character takes, their marks, and its number in the bits left |
| Utf8.DecodeEncode | src/text.rs:16-40 | decoding undoes encoding for every text (RFC 3629, section 3) |
| Utf8.DecodeIsExact | src/agents/llm_proxy.rs:396 | the validating decoder accepts exactly well-formed UTF-8 and returns the text it encodes |
| Utf8.BoundariesAreCharStarts | src/text.rs:21-38 | the byte test finds exactly the places where a character starts |
| Utf8.CutIsWellFormed | src/text.rs:13-15 | cutting encoded text at a boundary leaves two well-formed halves |
| Utf8.BoundaryNearby | src/text.rs:21-38 | from every index a boundary is at most three bytes away in either direction |
| Utf8.FloorCharBoundary | src/text.rs:16-25 | the greatest boundary at or before the index, at most three bytes back, with both halves well formed |
| Utf8.CeilCharBoundary | src/text.rs:31-40 | the least boundary at or after the index, at most three bytes on, with both halves well formed |

## Left out

- The turn ring (`core/sequencer.rs`), the participant pump (`core/pump.rs`), application state, storage, policy and the signaling bridge: what they answer is an input of the models here.
- Process spawning and signals, PTYs, sockets, TLS, async scheduling, Tauri commands and the front end. Channels are sequences and time is a number that does not go back.
- SupervisorRuns.KillIsFinal: a relay to a child and a send to the caller inside an arm are taken as immediate. In the program they can wait for room, and a kill or an interrupt sent meanwhile is seen only afterwards, so one item already in hand may still go out.
- SupervisorRuns.ForwardedInOrder: a caller that drops its event receiver is not modelled; the program then discards events and goes on.
- SupervisorRuns.RespawnsAreJustified: a nudge is offered, and whether the fresh child's input pump took it is not recorded, as in the program. Wording of nudges and notices is reduced to the status they name.
- Activity.ActivityTracker.RecomputeLocked: the tracker's mutex is taken for granted, so calls happen one at a time; a flip of `awaiting` between two reads inside one call is not modelled.
- LapWaiter.AwaitLapEnd: the busy flags and the halt flag of one poll are read as one sample.
- DataDirFold.CrashConvergence: speaks of the tree and of success or failure. When a rerun reports FirstRun is stated exactly (`DataDirOutcome.RerunReportsFirstRun`); which slots it lists is stated of the tree the crash left (`DataDirReport.ReportIsExact`), not of the stop.
- DataDirFold.MigrationCrashIsHarmless: covers moves by atomic rename and writes that are atomic. The recursive copy used when a rename fails, a write cut short, symbolic links and permissions are not modelled; an unreadable file is one that is not text.
- DataDirPlain.ConsolidatedText: the shipped templates are parameters, as are the bytes of files that are not valid UTF-8.
- WatchdogRuns.WatchdogIsExact: the mode without an idle watch, which only reports silence, is left out, and health is as it stood after the silence check, not as reports arriving during the tray and halt queries may change it.
- WatchdogRuns.HaltsAreSeparated: the call that declares a halt is taken to fill the halt slot; an error from it is not modelled. The liveness counters of `AgentLiveness` are inputs of each poll.
- Scrollback.ScrollbackBuffer.EndOffset: offsets are unbounded; the 64-bit wrap after 2^64 bytes is not modelled.
- BodyNormalizer.NormalizeMessagesBody: works on JSON values; parsing, printing and the order of object keys are not modelled. Blocks of a system entry that are not text are dropped, as in the program.
- ProxyRoute.RoutesBack: header filtering, streaming and the upstream request itself; a `#fragment`, which clients do not send, counts as part of the suffix.
- ContextRuns.MeterIsExact: the 1.05 test is exact rational arithmetic, without floating-point rounding. Rendering a non-string tool result as JSON text is left out, so the event carries the value.
- ContextMeter.PumpEvents: a line is blank, unparseable or an event; a read error is the end of the lines.
- Heartbeat.HeartbeatWatcher.SweepAll: instants are nanosecond counts. The message to the frame and its answer travel in the front end.
- Command-line flags, role prompts, capability and catalog tables, phase parsing, worktrees and update checks: text, or tables decided case by case.
