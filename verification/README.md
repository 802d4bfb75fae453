# Agent Watchdog: verified decision code

This project models, in Dafny, the deterministic decisions of Agent Watchdog: how evidence is read from
append-only logs, admitted to a session's queue, reduced to a session state, attributed to a parent session,
recorded as durable events, and acknowledged by the parent. Each part is stated twice where the program updates
things in place: as the step-by-step code (a method, often of a class), and as a function or predicate on values
that says what the code is for. The methods are proved equal to the functions; the properties are proved about
the functions over every input and every run.

The main results:

* **Reading.** A log read in bounded chunks, however it grows and whatever the budgets, yields exactly the newline
  split of the bytes covered (`Incremental.ChunkingIndependence`); draining a file terminates with all of it
  (`Incremental.DrainIsComplete`); and the cap on unfinished records is respected by every read exactly when every
  line fits it (`Incremental.NeverTooLarge`, `Incremental.CapIsTight`).
* **Tailing.** In every history of one append-only file, with crashes anywhere, failed saves and skips, no key is
  shared by two records (`Tail.ExactlyOnceTailing`). Deliveries are whole records of the file if and only if every
  complete record fits the partial cap or a pass is too short to outgrow it (`TailExact.WholeRecordsIff`). Every history
  of a file delivers its records and loses none if and only if, besides, no pass over the file reads records together
  with more of its tail than the cap (`TailLossless.ExactTailingIff`); then any two histories that caught up delivered
  the same set (`TailLossless.CrashesLeaveNoTrace`). Budgets that never lose a fitting record are exactly those that
  read at most one byte more than the cap at a time (`TailLossless.LosslessBudgetIff`). Undisturbed passes make progress
  if and only if the batches of a pass can outgrow the cap (`TailProgress.ProgressIff`). Where the loop goes on after a
  replaced or truncated file, keys stay unique if and only if those used before lie behind the new place
  (`TailRecovery.RecoveryKeepsKeysIff`), and however often files are replaced, every delivered record is a line of the
  file that the saved place named (`TailReplaced.DeliveredFromNamedFile`).
* **Reducing.** In every run each field of a snapshot is what the last accepted observation about it said, read from the
  observations and ticks of the run (`Evidence.EvidenceDecides`), and each step reports exactly what it changed
  (`Reporting.EventsReportChanges`). The event log of any run replays to the snapshot (`ReducerRuns.LogReplays`), also
  through failing stores and lanes that share the event sequence (`Coordinator.DurableLogReplays`). A stopwatch kept
  beside the reducer shows that a tick never counts more than the true unpaused time, and exactly how much less it may
  count (`StallClock.TickUsesUnpausedTime`).
* **Terminating.** After any run, restarts included, each blocker is reported exactly when the run's inputs give its
  reason (`Safety.BlockersFromEvidence`), and an eligible assessment proves an unbroken, activity-free stall of at least
  the required length (`Safety.TerminationSound`).
* **Binding.** In every interleaving of registrations, rollbacks, releases and stale guards, a guard commits if and
  only if its transport was not released since (`Scope.CommitSucceedsIffUnreleased`), and a transport is authorised
  for exactly what was granted since its last release (`Scope.ScopeAuthority`, `Scope.GrantPersists`). When a
  registration is refused is told from the clients' side, exactly (`Scope.RegistrationOutcome`).
* **Acknowledging.** Whatever calls overlap, fail or lose their reply, no event up to the acknowledgement was missed,
  provided callers confirm only cursors they received and events appear beyond what was handed out
  (`Inbox.AcknowledgedWasDelivered`), and both provisos are exact: a caller that confirms past an unseen event
  acknowledges it (`Inbox.AcknowledgesUnseenIff`), and an event that appears any earlier can be acknowledged unseen by
  callers who confirm nothing else than what they received (`Inbox.HarmlessIffTimely`). A client that passes cursors
  back gets each event exactly once, in order, through failed calls and lost replies (`Inbox.ExactlyOnceDelivery`).
* **Correlating.** Sorting, per-parent reduction and thresholds agree with a declarative decision over the raw
  candidates (`Correlation.CorrelationMeetsSpec`, `Correlation.SelectedIffWins`); the choice never depends on their
  order (`Correlation.ChoiceIgnoresOrder`), and the ordered evidence exactly when no two candidates that differ only in
  role show (`Correlation.OrderIndependentIff`). Which rivals a selected inferred parent is sure to lead by the gap is
  decided by their trust alone (`Correlation.GapGuaranteedIff`).
* **Bounded structures and traversals.** The coalescing queue (`Queue.QueueConserves`), the least-recently-used cache
  and its alias registry (`Lru.EvictsLeastRecentlyTouched`, `Lru.AgreesWithMap`, `Alias.ResolvesIffUnanimous`,
  `Alias.AmbiguityIsSticky`), the directory scan (`Scan.ScanTree`) and the process closure
  (`Descendants.DescendantIds`).

The classes of `Reducer`, `Scope`, `Queue`, `Lru` and `Alias`, and `Correlation.CorrelateCandidates`, are the in-place
form of the program. Each of their methods is proved equal to the function of the same step on values, and the table
below names the lemmas about those functions instead of the methods.

## Where a natural claim is false

Each of these has a lemma that gives a failing input, beside the exact statement that does hold.

* Elapsed time is not always the unpaused time: progress that arrives during a pause leaves the pause open, and the
  part of it before the progress is subtracted again at resume (`StallClock.PauseMayBeSubtractedTwice`). The stall
  condition is therefore given exactly, with that debt (`StallClock.StallsExactlyWhenDue`).
* A key need not name one record of the file: a line longer than the partial cap, read while it is being written, is
  skipped, and its end is delivered under the key of the whole (`TailExact.OneKeyTwoRecords`,
  `TailExact.LongRecordIsTruncated`). The exact condition is `TailExact.WholeRecordsIff`; within one history keys stay
  unique all the same (`Tail.ExactlyOnceTailing`).
* A record can be lost although every complete record fits: a read that also sees more than the cap of the unfinished
  line behind it gives both up (`TailLossless.RecordIsLost`). The program's own budget allows it
  (`TailLossless.ProgramBudget`). The exact condition is `TailLossless.ExactTailingIff` for each file, and
  `TailLossless.LosslessBudgetIff` for all files at once.
* A pass need not advance: a line as long as all batches of a pass, under a cap that large, is read again and again
  (`TailProgress.PassIsStuck`). `TailProgress.ProgressIff` is exact, and the program's budget is on the safe side.
* Keys can be used twice across a recovery, because they hold no file identity: after a file is replaced or truncated
  in place the loop goes on at the end of what it finds, and a later line can end at an offset used before
  (`TailRecovery.RecoveryReusesKeys`). It cannot if and only if every earlier key lies at or before the offset of the
  recovered place, or names the empty record just behind it (`TailRecovery.RecoveryKeepsKeysIff`).
* An acknowledged event may never have been shown: the offset is saved before the page is returned, so a lost reply
  raises the ceiling for a page nobody got (`Inbox.LostPageCanBeAcknowledged`). A confirmation acknowledges an unseen
  event exactly when it reaches past the cursors handed out to one (`Inbox.AcknowledgesUnseenIff`).
* An event that becomes visible at or below the acknowledgement is never received (`Inbox.LateEventExists`,
  `Inbox.LateEventIsNeverServed`). Event ids are allocated before the store commits; publication is harmless exactly
  when it is beyond every cursor handed out and inside no page already read (`Inbox.HarmlessIffTimely`, with the calls
  that do the harm in `Inbox.UntimelyIsAcknowledgedUnseen`), which id order guarantees (`Inbox.IdOrderIsTimely`).
* A selected parent need not lead every rival of its basis by the gap: the gap is tested against the top-ranked
  rival only, and trust ranks before confidence (`Correlation.CloserRivalOfLowerTrust`). It is sure to lead a rival,
  whatever confidence that rival claims, if and only if the rival is trusted at least like the top rival
  (`Correlation.GapGuaranteedIff`).
* The evidence lists of a decision can depend on the order of the candidates when one session id is named in two roles
  (`Correlation.TwoRolesReorder`); exactly when, says `Correlation.OrderIndependentIff`.
* An ambiguous alias can become resolvable again, because `mark_ambiguous` may evict any entry
  (`Alias.MarkingMayForget`). It stays ambiguous if and only if no mark of an unknown alias finds the registry full
  with this alias the oldest (`Alias.AmbiguityIsSticky`); binds and resolves alone never forget it
  (`Alias.OnlyMarksForget`).

## Environment

Time, store answers, open and read failures, and file growth are parameters, quantified over. A file is a byte
sequence that grows at the end, also between the length check and the read. A directory tree is a finite map from
paths to entries with an arbitrary enumeration order. Sizes, offsets and clocks are 64-bit and saturate where the
program saturates. A file name is a sequence of bytes, one `char` each. Session, observation and transport identities
are opaque values with equality and order. The event key of a record is its end offset; the native session id in front
of it is the same for the whole file. Other lanes may take identities from the shared event sequence at any time, also
between two events of one step.

A stall start recorded before a restart belongs to the old process clock. Because each process clock starts at zero,
the subtraction is conservative, and `Safety.TerminationSound` needs no restart-free assumption.

## Model

| member | source | states |
|---|---|---|
| `Lines.SplitRoundTrip` | crates/watchdog-runtime/src/incremental.rs:238-258 | Every byte string is its complete records followed by its unterminated tail, and none of them holds a newline. |
| `Lines.SplitUnique` | crates/watchdog-runtime/src/incremental.rs:238-258 | That split is the only one: newline-free records and tail that spell a string are its records and tail. |
| `Lines.RecordsConcat` | crates/watchdog-runtime/src/incremental.rs:241-251 | Splitting across any record boundary is splitting the two sides. |
| `Incremental.TakeRecords` | crates/watchdog-runtime/src/incremental.rs:238-258 | The buffer loop finds the complete records of the newline split, cut at the record budget, and reports exhaustion exactly when another complete record remains. |
| `Incremental.Read` | crates/watchdog-runtime/src/incremental.rs:208-285 | One bounded read, with its replacement, truncation and partial-size answers, refines the split of its window. |
| `Incremental.ReconcileReasons` | crates/watchdog-runtime/src/incremental.rs:216-263 | A read asks for reconciliation exactly for another file, for one shorter than what was read, or for more unfinished bytes than the cap behind records that fit the record budget. |
| `Incremental.ReadAdvances` | crates/watchdog-runtime/src/incremental.rs:253-284 | A batch moves the complete offset over exactly the bytes its records occupy, and the new cursor carries the newline-free rest. |
| `Incremental.ChunkingIndependence` | crates/watchdog-runtime/src/incremental.rs:208-285 | For any file, start, budgets and interleaving of appends and reads, emitted records are the newline split from start to complete offset and the partial is the newline-free slice up to the read offset. |
| `Incremental.ReadProgress` | crates/watchdog-runtime/src/incremental.rs:253-284 | Unread bytes strictly advance the read offset, and continuation is required exactly while bytes of the file remain. |
| `Incremental.NeverTooLarge` | crates/watchdog-runtime/src/incremental.rs:258-263 | If every line and the tail fit the partial cap, a read of an append-only file never asks for reconciliation. |
| `Incremental.CapIsTight` | crates/watchdog-runtime/src/incremental.rs:258-263 | If some line does not fit, there is a boundary and a byte budget at which the read gives up: the condition cannot be weakened. |
| `Incremental.DrainIsComplete` | crates/watchdog-runtime/src/incremental.rs:201-285 | Reading a fixed file until no continuation is required ends at its end with all remaining records and its tail. |
| `Tail.TranscriptTail.Ingest` | crates/watchdog-server/src/discovery.rs:1812-1837 | Records are ingested in order under the running sum of their lengths; a failure leaves exactly the records before it, and success ends at the batch cursor's offset. |
| `Tail.TranscriptTail.Tail` | crates/watchdog-server/src/discovery.rs:1755-1855 | One pass of at most four batches, whatever the files hold: resume from the saved file and offset, deliver under running-sum keys that agree with the batch cursor, save after each batch, and on a read that needs reconciliation save the end of the file that is there now, its identity included. |
| `Tail.KeysIncrease` | crates/watchdog-server/src/discovery.rs:1813-1816 | Keys grow strictly with position, so no key is shared by two records. |
| `Tail.PassDeliversInOrder` | crates/watchdog-server/src/discovery.rs:1812-1837 | Whatever files it finds, a pass only adds deliveries, in the order of their keys. |
| `Tail.BatchIsExpected` | crates/watchdog-server/src/discovery.rs:1812-1838 | A batch read at a boundary delivers the next stretch of what the whole file should deliver. |
| `Tail.HistoryIsSound` | crates/watchdog-server/src/discovery.rs:1762-1855 | Passes, crashes, appends and skips in any order keep the saved offset at a record boundary of the current stretch, everything before it delivered, nothing invented, and keys unique. |
| `Tail.ExactlyOnceTailing` | crates/watchdog-server/src/discovery.rs:1762-1855 | For one append-only file with lines of any length: no key is shared by two records, what a key delivers are the bytes before its newline, and since the last skip deliveries are exactly the expected ones up to the saved offset. |
| `TailProgress.PassMakesProgress` | crates/watchdog-server/src/discovery.rs:1769-1854 | When four batches can outgrow the partial cap, an undisturbed pass from any sound state saves a larger offset or has caught up. |
| `TailProgress.PassIsStuck` | crates/watchdog-server/src/discovery.rs:1769-1854 | Otherwise a line as long as four batches leaves the pass where it was. |
| `TailProgress.ProgressIff` | crates/watchdog-server/src/discovery.rs:1769-1854 | So passes make progress on every file if and only if four batches can outgrow the cap. |
| `TailProgress.PassesCatchUp` | crates/watchdog-server/src/discovery.rs:1769-1854 | Repeated undisturbed passes catch up with any stage of the file, without a skip if its lines fit. |
| `TailExact.LongRecordIsTruncated` | crates/watchdog-server/src/discovery.rs:1779-1811 | For any file with a complete record beyond the cap there is a history that delivers an empty record under its key. |
| `TailExact.OneKeyTwoRecords` | crates/watchdog-server/src/discovery.rs:1779-1837 | Concretely, two crash-free histories of one four-byte file deliver different records under key 4. |
| `TailExact.WholeRecordsIff` | crates/watchdog-server/src/discovery.rs:1762-1855 | All histories of a file deliver only whole records under their own keys if and only if every complete record fits the cap or a pass cannot outgrow it. |
| `TailLossless.ExactTailing` | crates/watchdog-server/src/discovery.rs:1762-1855 | Of a lossless file every history delivers only the file's records and all of them before the saved offset. |
| `TailLossless.ExactTailingIff` | crates/watchdog-server/src/discovery.rs:1762-1855 | For each file and budget: every history delivers only whole records and misses none before the saved offset, if and only if passes never outgrow the cap, or complete records fit and so does the tail unless no pass from a record boundary has a read that takes the remaining records together with more of the tail than the cap. |
| `TailLossless.CaughtUpDelivers` | crates/watchdog-server/src/discovery.rs:3523-3605 | Once no complete record lies beyond the saved offset, the delivered set is the file's. |
| `TailLossless.CrashesLeaveNoTrace` | crates/watchdog-server/src/discovery.rs:3523-3605 | Two histories that caught up with the same lossless file delivered the same set, with or without crashes. |
| `TailLossless.RecordIsLost` | crates/watchdog-server/src/discovery.rs:1779-1811 | Any file whose complete records fit and that is not lossless has a history that loses one of them. |
| `TailLossless.LosslessBudgetIff` | crates/watchdog-server/src/discovery.rs:1779-1811 | A budget loses no record of any file with fitting records if and only if it reads at most one byte more than the cap. |
| `TailLossless.ProgramBudget` | crates/watchdog-server/src/discovery.rs:2091-2100 | The program's budget always makes progress and can lose a fitting record. |
| `TailRecovery.RecoveryKeepsKeysIff` | crates/watchdog-server/src/discovery.rs:1779-1816 | For any recovered place, same file or not, any keys used before and any budget: no later history shares a key between two records if and only if every earlier key lies at or before the recovery offset or names the empty record just behind it. |
| `TailRecovery.SkipRecovers` | crates/watchdog-server/src/discovery.rs:1779-1811 | Whatever made a read need reconciliation, the next pass starts at the recovered place with everything delivered before. |
| `TailRecovery.HistoryIgnoresEarlier` | crates/watchdog-server/src/discovery.rs:1762-1855 | What was delivered before a recovery has no influence on what follows it. |
| `TailRecovery.RecoveryReusesKeys` | crates/watchdog-server/src/discovery.rs:1779-1816 | Concretely, after a replacement by an empty file or a truncation in place, a new line repeats an old key. |
| `TailReplaced.ForeignFileIsLeftAlone` | crates/watchdog-server/src/discovery.rs:1769-1811 | In every history, with any files in any order, an iteration that opens a file other than the saved one, or one truncated below the read offset, delivers nothing, saves nothing but the recovered place and ends the pass. |
| `TailReplaced.OnlyRecoveryRenames` | crates/watchdog-server/src/discovery.rs:1779-1855 | The saved place names another file only after a recovery put it there. |
| `TailReplaced.DeliveredFromNamedFile` | crates/watchdog-server/src/discovery.rs:1755-1855 | However often the file is replaced or truncated, every delivered record is a line of the file that the saved place named when it was delivered, behind that place and ending at its key. |
| `Reducer.ReduceInPlace` | crates/watchdog-domain/src/reducer.rs:276-307 | The in-place reducer, restart and reconciliation included, equals its value-level meaning and counts a revision exactly when something changed. |
| `ReducerRuns.EffectIsLogged` | crates/watchdog-domain/src/reducer.rs:276-431 | Reading a step's events takes a reader from the old state and conflict flag to the new ones. |
| `ReducerRuns.LogReplays` | crates/watchdog-domain/src/reducer.rs:276-575 | Over every run `StateChanged` chains without gaps or no-ops, `ConflictChanged` alternates, and the whole log replays to the snapshot. |
| `ReducerRuns.RunsAreCoherent` | crates/watchdog-domain/src/reducer.rs:385-412 | Every run keeps Stalled equivalent to set stall timers, and the conflict flag to a kept memo. |
| `ReducerRuns.ReachableIsCoherent` | crates/watchdog-domain/src/reducer.rs:111-135 | So every snapshot reachable from a new session has both equivalences. |
| `ReducerRuns.EventsCountRevisions` | crates/watchdog-domain/src/reducer.rs:303-306 | A tick or observation that emits an event raises an unsaturated revision by one, and one that raises none changed nothing. |
| `ReducerRuns.TickRunBounds` | crates/watchdog-domain/src/reducer.rs:442-479 | Any run of ticks emits at most one `Suspect` and one `AlertDue`, and reminders times the cadence are bounded by the advance of the last-reminder time. |
| `ReducerRuns.ConflictHoldsOverRuns` | crates/watchdog-domain/src/reducer.rs:385-397 | No run without accepted state evidence leaves a conflict-forced Unknown or changes its memo. |
| `ReducerRuns.ConflictRoundTrip` | crates/watchdog-domain/src/reducer.rs:385-412 | Conflict, any such run, then resolution restores exactly the prior state. |
| `ReducerRuns.TicksLeaveSettledAlone` | crates/watchdog-domain/src/state.rs:84-94 | Ticks alone never touch a session that waits for a person, has finished, disappeared, is unknown, paused or unreconciled. |
| `ReducerRuns.ProgressWakes` | crates/watchdog-domain/src/reducer.rs:503-522 | After progress no session is waiting, idle or stalled, and no finished or conflicted one was revived. |
| `ReducerRuns.NewTroubleAlertsOnce` | crates/watchdog-domain/src/reducer.rs:343-362 | Native evidence alerts once for newly observed stall, failure or disappearance and never otherwise. |
| `ReducerRuns.RestartFreezesState` | crates/watchdog-domain/src/reducer.rs:288-301 | After a restart the state stays frozen until reconciling evidence, whatever ticks and weak evidence arrive. |
| `Evidence.EvidenceDecides` | crates/watchdog-domain/src/reducer.rs:276-575 | In every run of a new session each field is what the last step that said anything about it said: state, state before a conflict, deadline, conflict, reconciliation, pause, activity, suspicion, process, summary and warning, read from the recorded and trusted observations and the ticks. |
| `Evidence.LastIsLast` | crates/watchdog-domain/src/reducer.rs:317-431 | The last word is that of some step after which no step said anything, or the initial value if nobody did. |
| `Evidence.DeadlineIsLastSet` | crates/watchdog-domain/src/reducer.rs:484-491 | The deadline in force is the last accepted one that was not replaced or cleared since. |
| `Evidence.StallsAtDeadline` | crates/watchdog-domain/src/reducer.rs:442-469 | With a deadline in force, a tick stalls a live, unpaused, reconciled session exactly when the deadline has come. |
| `Reporting.EventsReportChanges` | crates/watchdog-domain/src/reducer.rs:276-482 | Every step reports exactly the changes it made, once each: state, conflict, warning and deadline changes, restarts, new suspicion, new trouble, and a reminder exactly at its cadence. |
| `Reporting.StepStamps` | crates/watchdog-domain/src/reducer.rs:286-328 | The last reminder, the last change of state and the snapshot carry the time of the step that made them. |
| `StallClock.StopwatchAgrees` | crates/watchdog-domain/src/reducer.rs:524-551 | Over every run of any number of boots, the snapshot's accounting equals an independent stopwatch with its debt, and no sum saturates. |
| `StallClock.TickUsesUnpausedTime` | crates/watchdog-domain/src/reducer.rs:577-581 | The elapsed time of a tick is the true unpaused time less the debt: never more, and equal without debt. |
| `StallClock.StallsExactlyWhenDue` | crates/watchdog-domain/src/reducer.rs:442-469 | A tick stalls a session without deadline exactly when that time reaches the threshold, so never early. |
| `StallClock.PauseMayBeSubtractedTwice` | crates/watchdog-domain/src/reducer.rs:538-551 | A concrete run in which progress during a pause makes a later tick count less than the unpaused time. |
| `Safety.HealthyIffUnmarked` | crates/watchdog-domain/src/safety.rs:170-195 | The health bit set is all-healthy exactly when no component was ever marked. |
| `Safety.PassGate` | crates/watchdog-domain/src/safety.rs:366-378 | A gate adds itself or its blocker and leaves earlier verdicts alone. |
| `Safety.AssessTermination` | crates/watchdog-domain/src/safety.rs:247-347 | The two sets hold exactly the gates that hold and the blockers that apply; eligibility is all eleven gates. |
| `Safety.BlockersFromEvidence` | crates/watchdog-domain/src/safety.rs:247-347 | After any run, each blocker is reported exactly when the run's inputs give its reason: the session's own identity, the stall since it began, a conflict not resolved, a wait for the user, the last deadline set, an open pause, a restart awaiting evidence, a marked component, a running operation, no process, or an executable of another runtime. |
| `Safety.GatesMirrorBlockers` | crates/watchdog-domain/src/safety.rs:366-378 | Each gate is passed exactly when its own blocker is not reported. |
| `Safety.AcceptedExecutables` | crates/watchdog-domain/src/safety.rs:349-364 | Which executable names belong to which runtimes. |
| `Safety.StallMeasuredFromItsBeginning` | crates/watchdog-domain/src/safety.rs:261-276 | The recorded stall has lasted long enough exactly when the step that began the current stall lies that far back. |
| `Safety.EligibleMeansAllGates` | crates/watchdog-domain/src/safety.rs:238-242 | No blockers means every gate passed, the runtime gate that is only judged with a process included, and conversely. |
| `Safety.StallIsMeasured` | crates/watchdog-domain/src/reducer.rs:553-575 | The recorded stall start never claims more than the continuous stall measured by the clock, across restarts. |
| `Safety.StallBegan` | crates/watchdog-domain/src/reducer.rs:331-415 | A stalled run has a step where the stall began, after which every state is Stalled and no activity was accepted. |
| `Safety.TerminationSound` | crates/watchdog-domain/src/safety.rs:247-347 | Eligibility at the end of any run means that the run gives no reason against it, all gates passed, the session is the candidate child, and there is an unbroken activity-free stall of at least the required duration. |
| `Safety.SomeRunIsEligible` | crates/watchdog-domain/src/safety.rs:247-347 | Eligibility is reachable: a child observed stalled and left alone long enough passes every gate. |
| `Scope.ScopeRegistry.NextGeneration` | crates/watchdog-server/src/agent_api.rs:426-432 | Hands out each generation once and refuses at exhaustion. |
| `Scope.ScopeCounting` | crates/watchdog-server/src/agent_api.rs:425-614 | In every interleaving pending counts are live current guards, generations are unique, and an uncommitted binding has a live guard. |
| `Scope.GenerationsNeverReused` | crates/watchdog-server/src/agent_api.rs:426-432 | Over every continuation of a run, an old generation belongs only to the binding that held it all along. |
| `Scope.ScopeAuthority` | crates/watchdog-server/src/agent_api.rs:552-566 | A transport is authorised for exactly the root granted since its last release. |
| `Scope.GrantPersists` | crates/watchdog-server/src/agent_api.rs:528-567 | A grant stands until the transport is released, whatever other or stale guards do. |
| `Scope.CommitSucceedsIffUnreleased` | crates/watchdog-server/src/agent_api.rs:578-614 | A live guard commits if and only if its transport was not released since it was taken; a stale one is answered as not bound and changes nothing. |
| `Scope.RegistrationOutcome` | crates/watchdog-server/src/agent_api.rs:465-504 | In every run a registration is refused as already bound exactly when another root has a grant or a live current guard, as exhausted exactly when 2^64 - 1 current guards of its own are live or nobody holds the transport and all generations are handed out; otherwise it succeeds and the new guard is current. |
| `Scope.BindingOutcome` | crates/watchdog-server/src/agent_api.rs:434-463 | A direct binding is refused for the same reasons, except that it needs no guard; otherwise it is authorised. |
| `Scope.GenerationsAreCounted` | crates/watchdog-server/src/agent_api.rs:426-432 | The next generation is the number of bindings made for transports that nobody held. |
| `Scope.CurrentGuardsAgree` | crates/watchdog-server/src/agent_api.rs:474-487 | All live current guards of a transport share root and generation. |
| `Inbox.EventStore.SaveInboxOffset` | crates/watchdog-store/src/repositories.rs:1052-1076 | The upsert keeps the larger of each column and touches one root. |
| `Inbox.FirstIds` | crates/watchdog-store/src/repositories.rs:667-686 | The query returns the smallest ids beyond the cursor, in order, up to the limit. |
| `Inbox.EventStore.Assemble` | crates/watchdog-server/src/agent_api.rs:1887-1917 | The page shows each event in order with its subject's view, cached or not, and fails exactly on an unknown subject. |
| `Inbox.EventStore.ListEvents` | crates/watchdog-server/src/agent_api.rs:1863-1935 | Clamps the confirmed cursor, pages beyond it, and saves acknowledgement and ceiling only for an assembled page. |
| `Inbox.PageShowsRoot` | crates/watchdog-server/src/agent_api.rs:1879-1917 | A page shows each of this root's events between its two cursors once, in order, and no other event. |
| `Inbox.CallSavesAsListed` | crates/watchdog-server/src/agent_api.rs:1873-1932 | The separate steps of an undisturbed call save the offset that the whole call saves. |
| `Inbox.AckWithinDelivered` | crates/watchdog-server/src/agent_api.rs:1873-1932 | Under any overlap of calls the acknowledgement never passes the delivery ceiling. |
| `Inbox.AckMonotone` | crates/watchdog-server/src/agent_api.rs:1873-1932 | Acknowledgement and ceiling only grow. |
| `Inbox.OffsetIsWhatWasSaved` | crates/watchdog-store/src/repositories.rs:1052-1076 | In every interleaving the two saved columns are the largest cursor and the largest page end of the calls that saved, and such an end is a visible event. |
| `Inbox.CursorIsClamped` | crates/watchdog-server/src/agent_api.rs:1876-1878 | Whatever is confirmed, a call begins between the largest saved cursor and the largest saved page end: at the confirmation if it lies there, else at the nearer end. |
| `Inbox.AcknowledgedWasDelivered` | crates/watchdog-server/src/agent_api.rs:1863-1935 | With timely events and callers that confirm only received cursors, every visible event up to the acknowledgement reached a caller, in every interleaving of calls, failures and lost replies. |
| `Inbox.HarmlessIffTimely` | crates/watchdog-runtime/src/coordinator.rs:212-233 | From any state in which nothing was missed, a publication is beyond every cursor handed out and inside no page already read if and only if no continuation with honest callers acknowledges it before it reached one. |
| `Inbox.UntimelyIsAcknowledgedUnseen` | crates/watchdog-server/src/agent_api.rs:1873-1932 | Otherwise honest calls alone, without further publications, acknowledge the event unseen. |
| `Inbox.IdOrderIsTimely` | crates/watchdog-runtime/src/coordinator.rs:49-56 | Events that become visible in id order are timely. |
| `Inbox.AcknowledgesUnseenIff` | crates/watchdog-server/src/agent_api.rs:1876-1878 | A confirmation acknowledges an event no reply showed if and only if one lies between the cursors handed out and the clamped cursor. |
| `Inbox.LostPageCanBeAcknowledged` | crates/watchdog-server/src/agent_api.rs:1919-1934 | A concrete run: the offset is saved, the reply is lost, and a caller that confirms more than it was told acknowledges the unseen event. |
| `Inbox.LateEventIsNeverServed` | crates/watchdog-runtime/src/coordinator.rs:212-233 | Over every continuation, an event at or below the acknowledgement with no older call in progress is never received. |
| `Inbox.LateEventExists` | crates/watchdog-runtime/src/coordinator.rs:212-233 | A concrete run makes such an event: published after a larger one was served and confirmed. |
| `Inbox.FirstUnacknowledgedIsServed` | crates/watchdog-server/src/agent_api.rs:1876-1883 | The first event beyond the acknowledgement is on the page of any caller that confirms nothing, so a lost page comes again. |
| `Inbox.ExactlyOnceDelivery` | crates/watchdog-server/src/agent_api.rs:1863-1935 | A client passing back each cursor it receives has every event between its start and its cursor exactly once, in id order, through failed calls and lost replies. |
| `Inbox.ShortPageMeansCaughtUp` | crates/watchdog-server/src/agent_api.rs:1879-1886 | A page shorter than its limit means nothing visible is outstanding. |
| `Coordinator.EventSequence.Allocate` | crates/watchdog-runtime/src/coordinator.rs:49-56 | Hands out consecutive ids and refuses at exhaustion. |
| `Coordinator.SessionCoordinator.PersistOutput` | crates/watchdog-runtime/src/coordinator.rs:206-237 | Allocates one id per event from the shared sequence, which other lanes may advance in between, and advances snapshot and log only if the store applied them. |
| `Coordinator.AllocationIncreases` | crates/watchdog-runtime/src/coordinator.rs:212-229 | The ids of one step increase from the next free one on, whatever other lanes take in between, and its events keep their kinds and order. |
| `Coordinator.SessionCoordinator.ApplyInput` | crates/watchdog-runtime/src/coordinator.rs:198-238 | Reduce, number and persist as one step of the lane. |
| `Coordinator.DurableLogReplays` | crates/watchdog-runtime/src/coordinator.rs:198-238 | Through failed, repeated and exhausted transactions and ids taken by other lanes at any time, the stored events replay to the committed snapshot under strictly increasing ids. |
| `Coordinator.CommitsWhatWasApplied` | crates/watchdog-runtime/src/coordinator.rs:198-238 | The committed snapshot is the reducer's run over exactly the inputs the store applied, in order, and the stored events are that run's events. |
| `Coordinator.ResultMeans` | crates/watchdog-runtime/src/coordinator.rs:203-237 | Nothing to do is answered exactly for an idle tick or reconciliation, exhaustion exactly when identities do not suffice, and otherwise what the store answered; every step with something to do uses up its identities. |
| `Coordinator.AllocationSucceedsIff` | crates/watchdog-runtime/src/coordinator.rs:49-56 | Identities suffice exactly when those of the step and those taken meanwhile leave the last one unused. |
| `Correlation.AtLeastTransitive` | crates/watchdog-domain/src/correlation.rs:325-333 | The comparison is a total preorder on candidates. |
| `Correlation.ComesFirst` | crates/watchdog-domain/src/correlation.rs:38-53 | Which of two candidates comes first: by basis, then trust, then confidence, then the smaller session id, then the evidence. |
| `Correlation.SortSorts` | crates/watchdog-domain/src/correlation.rs:254-255 | The ranking is a descending permutation of the candidates. |
| `Correlation.BestRepresents` | crates/watchdog-domain/src/correlation.rs:256-266 | The per-parent map holds one entry per parent, each at least as good as all evidence for it. |
| `Correlation.ExplicitCount` | crates/watchdog-domain/src/correlation.rs:275-284 | More than one explicit parent after reduction means two distinct parents with explicit evidence anywhere in the raw list, and conversely. |
| `Correlation.CorrelationMeetsSpec` | crates/watchdog-domain/src/correlation.rs:250-323 | For every list, the decision is the declarative one over the raw candidates: empty, explicit conflict, the global maximum, minimum confidence, gap to the top rival. |
| `Correlation.SelectedIffWins` | crates/watchdog-domain/src/correlation.rs:275-307 | A candidate is selected if and only if it is the top of a list without explicit conflict and is explicit, or has the minimum confidence and no top rival of its basis within the gap. |
| `Correlation.SelectedOutranks` | crates/watchdog-domain/src/correlation.rs:325-333 | No candidate outranks the selected one by basis, by trust on its basis, by confidence at its trust, or by a smaller session id at its confidence. |
| `Correlation.SpecDeterminesChoice` | crates/watchdog-domain/src/correlation.rs:275-323 | The declarative decision leaves no choice: it fixes the kind of decision and the candidate selected. |
| `Correlation.ChoiceIgnoresOrder` | crates/watchdog-domain/src/correlation.rs:250-323 | For every list, permuting the candidates changes neither the kind of decision nor the candidate selected. |
| `Correlation.OrderIndependentIff` | crates/watchdog-domain/src/correlation.rs:309-333 | The whole decision with its ordered evidence is the same for every order if and only if candidates differing only in role occur for the session id of the raw list's winner alone. |
| `Correlation.OrderIndependent` | crates/watchdog-domain/src/correlation.rs:325-333 | In particular, with one role per session id permuting the candidates changes nothing. |
| `Correlation.TwoRolesReorder` | crates/watchdog-domain/src/correlation.rs:325-333 | A concrete list naming one session in two roles, with two orders that reject in different orders. |
| `Correlation.InferredLeads` | crates/watchdog-domain/src/correlation.rs:286-307 | A selected inferred parent leads by the gap every rival of its basis whose trust is at least the top rival's. |
| `Correlation.GapGuaranteedIff` | crates/watchdog-domain/src/correlation.rs:294-307 | That is exact: a rival of the selected basis stays behind by the gap whatever confidence it claims, if and only if its trust is at least the top rival's. |
| `Correlation.ExplicitSelectionStable` | crates/watchdog-domain/src/correlation.rs:286-323 | For every list, adding inferred candidates never changes an explicit selection. |
| `Correlation.CloserRivalOfLowerTrust` | crates/watchdog-domain/src/correlation.rs:294-307 | A concrete list in which a rival of lower trust is closer than the gap. |
| `Correlation.EvidenceConserved` | crates/watchdog-domain/src/correlation.rs:309-322 | Every candidate survives in exactly one part of the decision. |
| `Queue.SessionQueue.New` | crates/watchdog-runtime/src/queue.rs:64-73 | A queue exists exactly for a positive capacity. |
| `Queue.LastActivity` | crates/watchdog-runtime/src/queue.rs:97-101 | The newest activity entry, or none. |
| `Queue.QueueConserves` | crates/watchdog-runtime/src/queue.rs:91-147 | Over every run: one activity entry, capacity, accepted equals popped, displaced and queued, acceptance order, and durable first-in first-out with none lost. |
| `Queue.DisplacedIsSuperseded` | crates/watchdog-runtime/src/queue.rs:96-108 | Whatever was displaced, newer activity was accepted after it. |
| `Queue.RefusalDegrades` | crates/watchdog-runtime/src/queue.rs:109-115 | An item is refused, by its kind, exactly when full without a slot to coalesce into; it comes back and degrades the queue, and nothing else does. |
| `Queue.DegradedIffRefused` | crates/watchdog-runtime/src/queue.rs:109-147 | Over every run the queue is degraded exactly when something was refused since the last reconciliation. |
| `Lru.CacheIsOrdered` | crates/watchdog-server/src/discovery.rs:63-154 | Over every run recency is a duplicate-free permutation of the keys in order of last touch, within capacity. |
| `Lru.EvictsLeastRecentlyTouched` | crates/watchdog-server/src/discovery.rs:129-142 | Making room removes exactly the evictable key touched longest ago, and refuses only if none may be evicted. |
| `Lru.AgreesWithMap` | crates/watchdog-server/src/discovery.rs:63-154 | While the distinct keys fit, the cache holds what an unbounded map would. |
| `Lru.AnswersAreCurrent` | crates/watchdog-server/src/discovery.rs:81-113 | Whatever was evicted, a lookup or removal answers the last value inserted under the key and not removed since, and answers one exactly for a cached key. |
| `Lru.AnswersAsMap` | crates/watchdog-server/src/discovery.rs:81-113 | While the distinct keys fit, lookups and removals answer exactly as an unbounded map, and a removal removes. |
| `Alias.AmbiguousUnlessForgotten` | crates/watchdog-server/src/discovery.rs:522-551 | One operation keeps an ambiguous alias ambiguous if and only if it is not the mark of an unknown alias in a full registry whose oldest entry is this alias. |
| `Alias.AmbiguityIsSticky` | crates/watchdog-server/src/discovery.rs:522-551 | Over every run of binds, resolves and marks, an alias stays ambiguous throughout if and only if no step meets that guard, and then stays unresolved. |
| `Alias.MarkingMayForget` | crates/watchdog-server/src/discovery.rs:538-543 | From an empty registry, a concrete run in which marking another alias makes an ambiguous one resolvable again. |
| `Alias.ResolvesIffUnanimous` | crates/watchdog-server/src/discovery.rs:522-551 | While aliases fit, an alias resolves to a session exactly when all its bindings named it and none marked it. |
| `Scan.ReadEntries` | crates/watchdog-runtime/src/scan.rs:145-172 | Whatever the enumeration order, the kept names are the first in visiting order of those read, and without overflow or uncertainty all of them. |
| `Scan.VisitEntry` | crates/watchdog-runtime/src/scan.rs:173-203 | One entry keeps the lists right, visible, distinct and within budget; unless its type query fails or the path-byte budget is really exceeded it is listed, and queued within the depth budget. |
| `Scan.VisitEntries` | crates/watchdog-runtime/src/scan.rs:173-203 | The entries of one directory, in order, until the path-byte budget is really exceeded: all of them are listed whose type can be queried, and no found directory is forgotten. |
| `Scan.ScanEntries` | crates/watchdog-runtime/src/scan.rs:137-207 | A directory read within the entry budget is read completely or leaves a justified uncertainty; unless a budget other than depth is hit, all its legible entries are listed. |
| `Scan.ScanDirectory` | crates/watchdog-runtime/src/scan.rs:123-207 | Each directory taken off the queue is new and is dealt with: read, or left with a justified uncertainty after which the scan goes on unless a budget other than depth is hit. |
| `Scan.PathBytesCountText` | crates/watchdog-runtime/src/scan.rs:182-192 | The path-byte budget counts the bytes of the relative path as text. |
| `Scan.ScanTree` | crates/watchdog-runtime/src/scan.rs:109-214 | For any tree, order, clock and failures the scan terminates; results are right, distinct, breadth first with siblings in visiting order, and within depth, entry and path-byte budgets; without uncertainty complete; and an uncertainty is always real: a budget the tree exceeds, a clock reading that was taken, a failure of something reachable. Unless time ran out or the tree exceeds the entry or path-byte budget, exactly what can be seen within the depth budget in spite of failures is listed. |
| `Scan.FoundAll` | crates/watchdog-runtime/src/scan.rs:123-208 | With nothing uncertain and nothing queued, every reachable directory and file is listed. |
| `Scan.FoundSeen` | crates/watchdog-runtime/src/scan.rs:123-208 | Failures and the depth budget cost only what lies behind them: with nothing queued, everything else that is visible is listed. |
| `Descendants.SelectChildren` | crates/watchdog-process/src/linux.rs:373-377 | One pass over the table adds exactly the unselected children of a process and queues them. |
| `Descendants.DescendantIds` | crates/watchdog-process/src/linux.rs:369-380 | On any table, parent cycles included, the loop ends with exactly the root and every listed process whose parent chain reaches it, increasing and distinct. |

## Left out

- The JSON adapters for Claude, Codex and Companion, and the parsing of each record: single-branch field mappings; a
  record is opaque bytes here.
- The SQLite store beyond the event query, the offset upsert and the answer of one transaction: taken as atomic steps.
- The termination engine and its saga, the dashboard, notifications, HTTP, MCP transport, hooks, authentication and the
  web client.
- inotify, capability-confined opens, procfs and pidfd: kernel behaviour, present only as failures the environment may
  choose.
- UUID derivation, text bounds, configuration validation, log suppression and debug redaction: easy members.
- Asynchronous scheduling, lock order and deadlock freedom: each registry or store operation is one atomic step.
- `aggregate_main_state` and `compact`: direct case tables.
- The identical-tick shortcut of the coordinator's `apply_tick`, and the observation id saved with a file cursor.
- Safety.AssessTermination: takes the file name of the executable as given; extracting it from the path is not modelled.
- Scan.ScanTree: the path-byte bound is stated for budgets below the largest 64-bit value, at which the running sum
  saturates.
