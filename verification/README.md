# Interop, modelled and proved

A Dafny 4.11 model of the stateful protocols inside Interop's gateway, with proofs of what they
keep. `dafny verify dfyconfig.toml` checks all of it.

| file | models |
|---|---|
| `Admission.dfy`, `AdmissionRuns.dfy`, `AdmissionController.dfy` | the per-key admission semaphore: one key's transitions, every interleaving over all keys, and the objects whose methods are those transitions |
| `Installer.dfy` | install and uninstall as sequences of atomic file operations that may stop anywhere |
| `StreamAccumulator.dfy`, `StreamEngine.dfy`, `StreamChunks.dfy`, `StreamTurns.dfy`, `StreamAssembly.dfy`, `StreamOutcomes.dfy`, `StreamExceptions.dfy`, `StreamLoop.dfy`, `StreamDispatch.dfy` | the streaming request: fragment accumulation, what is emitted and when, independence of how the backend cuts its output, what every turn's calls look like, what a stream makes of everything it receives and shows of it, streams that do not stop exactly once, the loops themselves, and which requests are buffered instead |
| `StreamTransactions.dfy`, `StreamPrivacy.dfy`, `PrivacyExceptions.dfy` | the tool-call transaction and the private loop behind a stream, and streams that show what the loop keeps to itself |
| `Firewall.dfy`, `PrivateLoop.dfy` | the output firewall and the bounded private continuation loop |
| `LoopDetector.dfy`, `Sessions.dfy` | the session table with its loop detector |
| `Fences.dfy`, `Envelopes.dfy`, `ExtractorRegistry.dfy` | fence masking, the strict envelope scan, the fallback policy |
| `GenerationLedger.dfy`, `GenerationSeam.dfy` | the token ledger and the seam every generation goes through |
| `ToolBatch.dfy`, `CandidateMerge.dfy` | the tool-call transaction and the merge of native and textual calls |
| `TomlStrings.dfy`, `SystemdCommand.dfy` | two printers with the readers that undo them |
| `Common.dfy` | an option type, minimum and maximum, substring search, tool-call candidates |

Where the source updates objects or loops over lists, the model has a class or a method with a
loop, proved equal to a function of its inputs or of its old state; the theorems are about that
function. Collaborators (the model, the backend, the repair pipeline, extractors, executors, the
token meter, clocks) are arbitrary functions or parameters, and anything that can raise may.

Where code and comments disagree, or a promise has exceptions, the model follows the code:

* `set_route_capacity` on a busy key is forgotten, not deferred as `admission.py:226-227` says.
* Installing and uninstalling does not give back a file at the shim path that merely quotes the
  marker, and it consumes a legacy backup (`InstallThenUninstallRestoresIff`).
* From a directory with nothing but a marked legacy backup, an interrupted uninstall, a failing
  install and a forced install end in a complete manifest whose backup does not exist
  (`BreakingRunBreaks`); from every other start without a readable manifest this cannot happen. (A
  start with a complete manifest whose backup is gone has broken the promise already.)
* A native stream whose private continuation answers in plain text never sends `message_stop`
  and leaves its record active (`stream_engine.py:840-844`, `609-610`; `SilenceHappens`).
* The stream-safety recorder runs after a rejected batch has already stopped the stream
  (`stream_engine.py:576-590`), so if it raises, the wrapper stops the stream a second time (`SecondStopHappens`).
* The candidates a native stream relays from a private continuation are filtered by the enabled
  names only, so one with another reserved name gets through (`ReservedCallIsRelayed`); texts that are
  free of references one by one are joined when nothing is decided, and an occurrence may straddle
  the place where they meet (`JoinedTextsCanMention`). `RelayedIsPublic` and `BufferedIsPublic` say
  exactly when.
* The silent stream and these two are streams of the engine. A route with
  `buffer_unverified_streaming` (off by default, `config.py:254`; on for schema version 2,
  `config.py:947`) sends no request with private tools there, so they can only happen with that
  option off (`DirectHasNothingPrivate`, `StopsOnceIff`).
* A buffered response with calls keeps the model's own stop reason unless that is END_TURN
  (`gateway.py:2974-2976`), where the engine always says TOOL_CALL (`WellFormedIff`).
* A first round that runs a call that is not enabled shows the model a result without its call
  (`FirstRoundCanBeUnmatched`). No caller reaches this: all three (`stream_engine.py:498`,
  `stream_engine.py:790`, `gateway.py:2154`) start the loop with enabled calls only, and then every
  round matches (`EnabledRoundsMatch`).
* Every exit from a stream that was sent, other than its clean end and an error status, leaves
  the reservation open.
* Without a budget, a failed dispatch raises: `generation_seam.py:406` records the bytes on `None`.
* A refused bare message resets the primary result's confidence, spans and reasoning remainder to
  their defaults; its candidates and text survive (`Emptied` in `ExtractorRegistry.dfy`).

## Model

| member | source | states |
|---|---|---|
| `AdmissionRuns.EveryRunIsSafe` | src/agent_interop/admission.py:174-389 | after every interleaving of acquisitions, wake-ups, timeouts, cancellations, releases and capacity changes, for every key: free permits + permits granted but not yet picked up + outermost holders = capacity >= 1, `active` = outermost holders, `queued` = waiters <= the queue limit, and each task's reentrancy count = its live slots |
| `AdmissionRuns.StepKeepsInv` | src/agent_interop/admission.py:254-364 | each single step, from any state with that invariant, keeps it |
| `Admission.BeginAcquireKeeps` | src/agent_interop/admission.py:284-310 | reentrant, immediate, queue-full and queueing acquisitions keep the key's invariant |
| `Admission.AcquiredIff` | src/agent_interop/admission.py:284-310 | when an acquisition is granted: to a holder, and to anybody while fewer permits are held or on their way than there are and everybody ahead has been struck; refused exactly when it is not granted and the queue is full; otherwise queued at the end; and the whole new state |
| `Admission.StruckIsNotServed` | src/agent_interop/admission.py:312-330 | a waiting task that is struck wakes up empty-handed and out of the queue, and a permit that was on its way to it is not lost |
| `Admission.ResumeKeeps` | src/agent_interop/admission.py:312-330 | waking up after a grant, a timeout or a cancellation, with or without a permit that came too late, keeps the invariant; the queue counter is positive when it is decremented |
| `Admission.InterruptKeeps` | src/agent_interop/admission.py:321-330 | a timeout or cancellation that reaches a waiting task keeps the invariant |
| `Admission.ReleaseKeeps` | src/agent_interop/admission.py:337-364 | releasing a held key keeps the invariant, never over-releases the bounded semaphore, and finds `active` positive, so its clamp never bites |
| `Admission.OverReleaseIff` | src/agent_interop/admission.py:337-364 | releasing over-releases the bounded semaphore if and only if every permit is free |
| `Admission.SetCapacityKeeps` | src/agent_interop/admission.py:219-239 | a capacity change keeps the invariant, only ever lowers the capacity, and changes anything only while nobody holds or waits |
| `Admission.PendingMeansSaturated` | src/agent_interop/admission.py:254-330 | no permit is stranded: while a task waits and nobody is about to wake up, every permit is held |
| `Admission.TighteningTakesEffectIffIdle` | src/agent_interop/admission.py:228-239 | a request to tighten takes effect if and only if nobody holds or waits; otherwise it leaves no trace |
| `AdmissionRuns.TighteningIsNeverDeferred` | src/agent_interop/admission.py:226-239 | a tightening asked for while the key is busy is forgotten for good: no later run without a new request ever reaches the lower cap (the comment in the source says the opposite) |
| `AdmissionRuns.CapacityOverRuns` | src/agent_interop/admission.py:219-239 | over any run a key's capacity stays between 1 and what it was, and moves only in a step that asks for it on an idle key |
| `AdmissionRuns.SlotIsGrantedIff` | src/agent_interop/admission.py:254-310 | over every run: beginning an acquisition adds a live slot if and only if the task already has one for the key or the key is uncontended, a slot that was not acquired if and only if not and the queue is full, and otherwise none and a place at the end of the queue |
| `AdmissionRuns.FirstComeFirstServed` | src/agent_interop/admission.py:297-303 | a key nobody has used gives the first task that asks a permit |
| `AdmissionRuns.StruckGetsNothing` | src/agent_interop/admission.py:312-330 | over every run: a waiting task that is struck wakes up to a slot that was not acquired |
| `AdmissionRuns.ReleaseKeepsInv` | src/agent_interop/admission.py:153-171 | releasing a live slot finds a held key and never over-releases |
| `AdmissionRuns.SecondReleaseIsNothing` | src/agent_interop/admission.py:153-171 | `release_now` and both exits together release a slot once: a second release changes nothing |
| `AdmissionRuns.OnlyOutermostFrees` | src/agent_interop/admission.py:337-364 | only the release of a task's last live slot on a key gives a permit back |
| `AdmissionRuns.QuiescentKeyIsIdle` | src/agent_interop/admission.py:337-389 | when no slot of a key is live and nobody waits for it, all permits are back and both counters are 0 |
| `AdmissionRuns.EveryWaiterCanBeServed` | src/agent_interop/admission.py:254-364 | from every reachable state there is a run of wake-ups and releases alone after which every task that was still waiting has been served and the key is idle |
| `AdmissionController.InferenceAdmissionController.BeginAcquire` | src/agent_interop/admission.py:254-310 | the method up to its return or wait is the transition of the run theorems |
| `AdmissionController.InferenceAdmissionController.Resume` | src/agent_interop/admission.py:312-330 | the method after its wait is the transition of the run theorems |
| `AdmissionController.InferenceAdmissionController.WakeUpAll` | src/agent_interop/admission.py:312-330 | the semaphore's wake-up loop hands out permits until none is free or nobody is pending, touching no counter |
| `AdmissionController.InferenceAdmissionController.ReleaseByKey` | src/agent_interop/admission.py:337-364 | the method is the release transition, false where the semaphore would raise |
| `AdmissionController.InferenceAdmissionController.SetRouteCapacity` | src/agent_interop/admission.py:219-239 | the method is the capacity transition |
| `AdmissionController.GenerationSlot.ReleaseNow` | src/agent_interop/admission.py:136-171 | releases through the controller on the first call and not on any later one |
| `Installer.ForeignWrapperIsNeverLost` | src/agent_interop/install.py:244-364 | over every sequence of installs (forced or not, failing or not) and uninstalls, each stopping after any file operation, a wrapper whose text lacks the marker is, exactly as it was, at the shim path or the backup path |
| `Installer.InstallIsSafe` | src/agent_interop/install.py:278-364 | each state an install passes through keeps such a wrapper, rollback included |
| `Installer.UninstallIsSafe` | src/agent_interop/install.py:453-513 | each state an uninstall passes through keeps such a wrapper |
| `Installer.ShimChains` | src/agent_interop/install.py:307-364 | an install that succeeds leaves a shim that chains to the backed-up wrapper if and only if one was moved now or the manifest it read names one, and to the binary it found otherwise; a manifest naming that wrapper and this shim; a moved wrapper at the backup path; and nothing else changed |
| `Installer.ShimsChainAsRecorded` | src/agent_interop/install.py:328-364 | over every run: where the record is finished and its shim in place, the shim chains to the backed-up wrapper if and only if the record names one |
| `Installer.FailureIsRolledBack` | src/agent_interop/install.py:329-341 | an install that fails leaves the manifest unfinished and a wrapper it moved back at the shim path |
| `Installer.UninstallPutsBack` | src/agent_interop/install.py:453-513 | an uninstall that recognises its shim puts the recorded wrapper, or else the legacy backup, in its place, removes the manifest and changes nothing else |
| `Installer.UninstallForgets` | src/agent_interop/install.py:453-513 | with nothing at the shim path an uninstall only removes the manifest |
| `Installer.TouchesNothingIff` | src/agent_interop/install.py:244-326 | exactly which commands leave the disk alone |
| `Installer.InstallThenUninstallRestoresIff` | src/agent_interop/install.py:278-513 | with no manifest at the start, install then uninstall gives back the very same disk if and only if the shim path held a wrapper without the marker, or nothing and there was no legacy backup |
| `Installer.TrustworthyAlwaysIff` | src/agent_interop/install.py:198-513 | with no readable manifest at the start, a complete manifest with a matching shim names no wrapper or an existing one in every state of every run, if and only if the directory did not start with a marked legacy backup and nothing foreign elsewhere |
| `Installer.BreakingRunBreaks` | src/agent_interop/install.py:292-513 | the run of four commands that breaks that promise from every other starting point |
| `Installer.RunsStayTrustworthy` | src/agent_interop/install.py:198-220 | the promise is kept over every run that starts with the backup path taken or with the marker nowhere but in our shim |
| `Installer.Directory.Install` | src/agent_interop/install.py:244-364 | the command performs exactly the file operations of the trace, which `ShimChains` and `FailureIsRolledBack` characterise, and reports each of its six outcomes |
| `Installer.Directory.Uninstall` | src/agent_interop/install.py:453-513 | the command performs exactly the file operations of the trace and reports each of its outcomes |
| `LoopDetector.WindowOfFiveIsEnough` | src/agent_interop/session.py:53-141 | with a window of at least five, the flag is up if and only if some prefix of the unbounded history ends in four repairs or has three records with the same tool, digest and result among its last five |
| `LoopDetector.WindowSuffices` | src/agent_interop/session.py:98-136 | looking at the last five of the trimmed list is looking at the last min(window, 5) records of the whole history, for every window size, 0 included |
| `LoopDetector.LoopedIsForever` | src/agent_interop/session.py:66-107 | recording more never takes the flag down |
| `LoopDetector.ThreePositions` | src/agent_interop/session.py:120-136 | a tally of three or more exists if and only if three records at different places agree |
| `LoopDetector.LoopState.RecordTool` | src/agent_interop/session.py:70-107 | the trimmed list, the counter and the flag are those of the whole history with this record added; a correction changes nothing |
| `LoopDetector.LoopState.DetectLoop` | src/agent_interop/session.py:109-136 | raises the flag exactly when the history now ends in a loop |
| `LoopDetector.LoopState.MostCommonCount` | src/agent_interop/session.py:120-136 | the largest number of equal records, found by its double loop |
| `LoopDetector.LoopState.Reset` | src/agent_interop/session.py:138-141 | forgets the history |
| `Sessions.SessionIsItsReplay` | src/agent_interop/session.py:206-300 | over every run the table refines the log of calls: a live session is the replay of the calls on its own key since the request that created it, whatever happened to other keys |
| `Sessions.ReplayCounts` | src/agent_interop/session.py:160-190 | in closed form: requests since creation, repairs up to the bound, and a loop detector that has seen exactly the first of them, in order |
| `Sessions.SessionIsFlaggedIff` | src/agent_interop/session.py:53-190 | a live session is flagged if and only if, among the first max_repairs repairs reported for its key since the request that created it, some prefix ends in four with status repaired or regenerated, or has among its last five three of the same tool, the same digest and the same class of status |
| `Sessions.RecentIsLastReport` | src/agent_interop/session.py:164-190 | what a live session remembers of a tool is the issues and status of the last accepted repair of it since creation |
| `Sessions.AccessIsLastRequest` | src/agent_interop/session.py:231-255 | over every run, the access time of a live session is that of the last request begun on its key |
| `Sessions.WhoLeaves` | src/agent_interop/session.py:231-300 | over every run, who leaves the table: everybody with a clear, nobody with a repair, exactly those whose last request was seen longer ago than the time to live with a count; with a request on another key those and, of the others, only one whose last request began no later than that of anybody else still alive, and only when that key is new and the table full |
| `Sessions.OneLeavesIffFull` | src/agent_interop/session.py:231-291 | besides the expired, a request evicts exactly one session if its key is new and the table is full of live ones, and none otherwise |
| `Sessions.SeenIsLastRequest` | src/agent_interop/session.py:231-255 | over every run, a live session was last seen when the last request was begun on its key |
| `Sessions.TableIsBounded` | src/agent_interop/session.py:231-255 | after every run `_sessions` and `_last_access` have the same keys, and there are at most max(1, max_sessions) of them |
| `Sessions.AdmitsBounded` | src/agent_interop/session.py:231-255 | beginning a request keeps the bound and never evicts the session it returns |
| `Sessions.SessionManager.Begin` | src/agent_interop/session.py:231-255 | one request takes the table from one state of the log to the next, and hands out the session object the key already had, unless that had expired; then a new one |
| `Sessions.SessionManager.EvictExpired` | src/agent_interop/session.py:275-283 | leaves exactly the sessions whose time to live has not run out |
| `Sessions.SessionManager.EvictLru` | src/agent_interop/session.py:285-291 | removes one session whose last request began earliest |
| `Sessions.SessionManager.Repair` | src/agent_interop/session.py:262-273 | updates a live session below the bound in place, its trimmed detector included, and changes nothing else |
| `Sessions.SessionManager.ActiveCount` | src/agent_interop/session.py:298-300 | evicts the expired sessions and counts the rest |
| `Sessions.SessionState.Flagged` | src/agent_interop/session.py:192-194 | the flag is up if and only if the whole history of the session's repairs ended in a loop at some moment |
| `Sessions.SessionState.RecordRepair` | src/agent_interop/session.py:164-190 | the session's counters, memory and loop state after one repair: the new record has this tool and digest, counts as repaired if and only if the status is repaired or regenerated, and is otherwise a rejection if and only if the status says so |
| `Fences.FenceIff` | src/agent_interop/extraction.py:147-150 | a fence marker is three backticks or three tildes |
| `Fences.ClosedEndIsThePattern` | src/agent_interop/extraction.py:144-147 | where the scanner closes a fence is where the pattern closes it |
| `Fences.SpansAreLeftmost` | src/agent_interop/extraction.py:160-164 | no closed fence opens outside the spans that are blanked |
| `Fences.SpansAreFences` | src/agent_interop/extraction.py:160-164 | every blanked span is a closed fence |
| `Fences.MaskIsPointwise` | src/agent_interop/extraction.py:160-164 | masking keeps the length, writes spaces at the blanked positions and changes nothing elsewhere |
| `Fences.MaskIsFinal` | src/agent_interop/extraction.py:148-164 | after masking, for every text, no fence marker has a newline behind it, and masking again changes nothing |
| `Envelopes.EnvelopeIsThePattern` | src/agent_interop/extraction.py:135 | the scanner finds an envelope exactly where the pattern matches |
| `Envelopes.MatchesAreLeftmost` | src/agent_interop/extraction.py:249 | no envelope is missed: wherever one opens there is a match |
| `Envelopes.BlockIsTiled` | src/agent_interop/extraction.py:307-368 | gaps and envelopes, alternating, concatenate to the original text |
| `Envelopes.TagsLieOutsideFences` | src/agent_interop/extraction.py:234-249 | both tags of every match stand in the original text outside every fenced region |
| `Envelopes.PayloadIsVerbatim` | src/agent_interop/extraction.py:315 | the payload of a match without fenced text is the original substring, stripped |
| `Envelopes.TagsAre` | src/agent_interop/extraction.py:135 | the tags, character by character, in either case |
| `Envelopes.WordsAre` | src/agent_interop/extraction.py:135 | which characters continue a tag's name |
| `Envelopes.FencesAreInOrder` | src/agent_interop/extraction.py:238-247 | the advertised fences are non-empty pieces of the text, the closed ones in order |
| `Envelopes.BlockIsRead` | src/agent_interop/extraction.py:307-368 | a block with envelopes: each candidate is what the reader makes of the stripped text between the tags of its match, or of its opening tag's attributes when that is empty and names nothing; one for each match but those that say nothing, in order; and what remains are the gaps of the original, stripped, in order, the blank ones left out |
| `Envelopes.SpansOfBlock` | src/agent_interop/extraction.py:238-247 | its spans are its fences and then its envelopes |
| `Envelopes.MatchSpansAre` | src/agent_interop/extraction.py:369-371 | one span for each envelope, in order |
| `Envelopes.UnknownAreWarned` | src/agent_interop/extraction.py:327-349 | a warning is given of exactly the candidates that name a tool not on offer |
| `Envelopes.BlockWithoutMatch` | src/agent_interop/extraction.py:251-305 | a block without one: the recovered envelope read from its payload with the stripped text around it and a warning, or the block as it is with a warning if and only if an envelope was opened |
| `Envelopes.OtherBlocksStay` | src/agent_interop/extraction.py:223-227 | what is not text, and empty text, stays as it is |
| `Envelopes.BlocksStandInOrder` | src/agent_interop/extraction.py:223-385 | the result of all blocks is the results of the blocks, one behind another, each under its own number |
| `Envelopes.SpansAreTheBlanked` | src/agent_interop/extraction.py:238-247 | the advertised fence spans cover exactly the blanked positions |
| `Envelopes.ScanEnvelopes` | src/agent_interop/extraction.py:307-371 | the loop over the matches of one block yields exactly the candidates of the matches, the warnings about unknown tools and the stripped non-empty gaps, each in order |
| `Envelopes.ReadEnvelope` | src/agent_interop/extraction.py:315-361 | what one match contributes, attribute-only envelopes included |
| `Envelopes.Extract` | src/agent_interop/extraction.py:215-385 | the loop over the content blocks yields every block's candidates, remains, diagnostics and consumed spans, in order |
| `Envelopes.ExtractOne` | src/agent_interop/extraction.py:249-371 | one block: strict matches if there are any, otherwise the repaired envelope, otherwise the block itself, with a warning if an envelope was opened; the fences and envelopes are advertised as spans |
| `ExtractorRegistry.Extract` | src/agent_interop/extraction.py:1701-1834 | the fallback loop returns the primary result if it settles the matter, else the first admissible strategy's, else the primary text with one warning per refusal |
| `ExtractorRegistry.FallbackIsEarned` | src/agent_interop/extraction.py:1701-1834 | something is recovered if and only if some strategy is admissible, and then it is exactly what the first one found; under a named choice its first candidate is the named tool; otherwise the text is the primary's |
| `ExtractorRegistry.RecoveredIff` | src/agent_interop/extraction.py:1757-1834 | the conditions under which a strategy counts, one by one; something is recovered if and only if one does, and it is exactly what the first of them found, with one more diagnostic and seven tenths of its confidence |
| `ExtractorRegistry.NativeOutranks` | src/agent_interop/extraction.py:1762-1769 | with a native call present and every strategy to be skipped for one, the primary result stands |
| `ExtractorRegistry.RefusalsAreTold` | src/agent_interop/extraction.py:1784-1811 | where none counts, the primary text stays, with one warning for each find that failed only for its nonce |
| `ExtractorRegistry.BareMessageNeedsNonce` | src/agent_interop/extraction.py:1784-1811 | a bare message recovered under auto carries the non-empty nonce of this very request |
| `ExtractorRegistry.PrimaryStandsIff` | src/agent_interop/extraction.py:1745-1777 | native and answered responses are left alone, and otherwise the primary result comes back untouched if and only if no strategy may run and find something |
| `GenerationLedger.ReserveKeepsBalance` | src/agent_interop/execution_attempts/budget.py:180-241 | a reservation keeps the totals equal to the sum of the reservations' shares and is within every ceiling |
| `GenerationLedger.SettleKeepsBalance` | src/agent_interop/execution_attempts/budget.py:35-82 | commit, release and commit_estimated keep the totals equal to the sum of the shares, and subtracting an estimate never meets the clamp at zero |
| `GenerationLedger.FirstSettlementWins` | src/agent_interop/execution_attempts/budget.py:35-82 | of two settlements of one reservation, whichever they are, the first one counts |
| `GenerationSeam.StepReservesOnce` | src/agent_interop/generation_seam.py:158-331 | each run_step makes at most one reservation and leaves it with the fate its reply calls for: released iff nothing was sent, estimated iff sent without usable usage, committed with the actual usage otherwise, open iff it raised |
| `GenerationSeam.AnswerIs` | src/agent_interop/generation_seam.py:137-331 | what a step answers and whether its body goes to the wire: the first of context, bytes, input and generation budget that it would cross turns it away; past all of them it is done if and only if its reply decodes, and the other replies fail, find no slot or raise |
| `GenerationSeam.BareAnswerIs` | src/agent_interop/generation_seam.py:137-331 | the same without a budget |
| `GenerationSeam.BytesAre` | src/agent_interop/generation_seam.py:158-331 | bytes are counted exactly for bodies that were sent and did not raise |
| `GenerationSeam.ReservationIsWorth` | src/agent_interop/execution_attempts/budget.py:35-82 | what a settled step's reservation is worth: nothing if it was refused, the usage if the backend reported it, else the estimate |
| `GenerationSeam.SentWithinCeilings` | src/agent_interop/generation_seam.py:137-154 | a body is sent only within the safe context limit and within every ceiling, its estimate included |
| `GenerationSeam.EveryRunIsSound` | src/agent_interop/generation_seam.py:104-331 | over every sequence of requests the totals are the reservations' shares, rendered bytes stay under their ceiling and no body above its safe limit is ever sent |
| `GenerationSeam.AllSettledIffNoneRaised` | src/agent_interop/generation_seam.py:158-331 | no reservation is left open if and only if no call raised |
| `GenerationSeam.TheLedgerIsTheWire` | src/agent_interop/generation_seam.py:158-331 | where no call raised, the totals are exactly what the bodies on the wire cost, per purpose and in bytes, and a queued-out generation is never counted |
| `GenerationSeam.WithoutBudget` | src/agent_interop/generation_seam.py:391-406 | without a budget a call raises if and only if it passes the gate and its dispatch fails, because the failure is recorded on the missing budget |
| `GenerationSeam.OutputReserve` | src/agent_interop/generation_seam.py:64-69 | between 64 and 1024, the requested maximum in between, 512 by default |
| `GenerationSeam.GenerationReservation.Commit` | src/agent_interop/execution_attempts/budget.py:35-55 | replaces the estimate by the actual usage, once, and touches no other reservation |
| `GenerationSeam.GenerationReservation.Release` | src/agent_interop/execution_attempts/budget.py:57-67 | gives the estimate back, once |
| `GenerationSeam.GenerationReservation.CommitEstimated` | src/agent_interop/execution_attempts/budget.py:69-82 | keeps the estimate and counts the generation, once |
| `GenerationSeam.AttemptBudget.ReserveGeneration` | src/agent_interop/execution_attempts/budget.py:180-241 | refuses exactly when the latency allowance is used up or a ceiling would be crossed, and otherwise hands out a fresh open reservation |
| `GenerationSeam.GenerationSeam.Dispatch` | src/agent_interop/generation_seam.py:158-281 | every failure comes back settled, every success open |
| `GenerationSeam.GenerationSeam.RunStep` | src/agent_interop/generation_seam.py:283-331 | the method is the step of the run theorems, with and without a budget |
| `Firewall.PublicKeepsExactly` | src/agent_interop/private_loop.py:132-174 | the filter keeps exactly the blocks that are not private, in their order |
| `Firewall.PassesIffUntouched` | src/agent_interop/private_loop.py:73-174 | the leak assertion passes on a turn if and only if the filter would not touch it (in identity mode) |
| `Firewall.FilteredPassesIff` | src/agent_interop/private_loop.py:73-174 | a filtered turn always passes in identity mode, and without an identity if and only if the turn held no text with a marker |
| `Firewall.FilterTwiceIsOnce` | src/agent_interop/private_loop.py:132-174 | filtering again changes nothing |
| `Firewall.LegacyFilterCanFail` | src/agent_interop/private_loop.py:116-123 | a turn that the identity-less filter keeps and the assertion rejects |
| `Firewall.DroppedIff` | src/agent_interop/private_loop.py:132-174 | what the filter takes out, block by block, by identity and by patterns |
| `Firewall.RefusedIff` | src/agent_interop/private_loop.py:73-129 | what the assertion refuses besides |
| `Firewall.ReservedIff` | src/agent_interop/private_loop.py:66-70 | a name is reserved if and only if it begins with the prefix |
| `Firewall.EveryCallHasOneSide` | src/agent_interop/private_loop.py:177-193 | every call of a turn is on exactly one side of the partition |
| `Firewall.CallsAreKept` | src/agent_interop/private_loop.py:177-193 | each side holds exactly the calls of the turn that its prefix calls for, in order |
| `Firewall.SidesAreRight` | src/agent_interop/private_loop.py:177-193 | on the side its name's prefix calls for |
| `Firewall.FilterPublicBlocks` | src/agent_interop/private_loop.py:132-174 | the loop computes the filter |
| `Firewall.AssertNoInternalLeakage` | src/agent_interop/private_loop.py:73-129 | the loop raises exactly when some block is refused |
| `Firewall.PartitionByAuthority` | src/agent_interop/private_loop.py:177-193 | the loop computes both sides in order |
| `PrivateLoop.EveryRunIsBounded` | src/agent_interop/private_loop.py:355-557 | whatever the model answers, a run is a conversation of at most eight steps, each answering what the one before asked for and showing the original messages and its own round only; it is exhausted if and only if the eighth answer still asks for something private |
| `PrivateLoop.RoundIsShown` | src/agent_interop/private_loop.py:405-494 | every round of every run shows the model the original messages, then an assistant message with the enabled calls, each with its name and parsed arguments, then a tool message with one result per pending call, in order, carrying exactly what the executor answered for that round and place, or why the call was not run |
| `PrivateLoop.RoundsFollow` | src/agent_interop/private_loop.py:395-535 | the first round answers what the run was started with, each later one exactly the enabled calls the model asked for in the round before |
| `PrivateLoop.NoShownResultComesBack` | src/agent_interop/private_loop.py:540-587 | no result shown in any round is in a turn that is handed back |
| `PrivateLoop.NoMintedRefComesBack` | src/agent_interop/private_loop.py:450-464 | no text or result of it mentions a reference the executor minted in any round |
| `PrivateLoop.RefsAreMinted` | src/agent_interop/private_loop.py:456-464 | the references of a round are exactly those the executor minted in it, for calls that succeeded |
| `PrivateLoop.ReturnedIsLastTurn` | src/agent_interop/private_loop.py:540-587 | it is the model's last turn without its private blocks and enabled candidates |
| `PrivateLoop.ReturnedTurnIsPublic` | src/agent_interop/private_loop.py:540-587 | a turn that is handed back has no enabled or reserved-prefix call, no result of any private call of any round, no text or result with any reference pinned or minted in any round, and no enabled candidate; it passes the assertion, asks for nothing private, and is the model's last turn without its private blocks |
| `PrivateLoop.RoundsMatchIff` | src/agent_interop/private_loop.py:398-503 | calls and results shown in a round match one to one, in order and by id, if and only if it is not the first round or everything it started with is enabled |
| `PrivateLoop.EnabledRoundsMatch` | src/agent_interop/private_loop.py:398-503 | a run that starts with nothing but enabled calls, as its three callers see to, matches calls and results in every round |
| `PrivateLoop.FirstRoundCanBeUnmatched` | src/agent_interop/private_loop.py:413-424 | a concrete run whose first round shows the model a result without its call, because it was started with a call that is not enabled |
| `PrivateLoop.IdsMatchIff` | src/agent_interop/private_loop.py:405-477 | for any pending list: calls and results match if and only if every name is enabled |
| `PrivateLoop.SyntheticIdsDiffer` | src/agent_interop/private_loop.py:406-412 | ids made up for calls without one differ between any two rounds or places |
| `PrivateLoop.DecimalReadsBack` | src/agent_interop/private_loop.py:406-412 | the numbers in a made-up id read back as the round and the place |
| `PrivateLoop.AnswerPending` | src/agent_interop/private_loop.py:405-477 | the loop over the pending calls: calls, results, ids and references of the round |
| `PrivateLoop.Run` | src/agent_interop/private_loop.py:355-587 | the while loop is the run of the theorems |
| `ToolBatch.BatchIsDecided` | src/agent_interop/transaction.py:539-624 | blocks are the accepted calls in candidate order; atomic means all candidates or none, best effort exactly the accepted ones; rejected and accepted add up to the candidates; every block names a declared tool and keeps its candidate's id or gets a non-empty one |
| `ToolBatch.AcceptedIff` | src/agent_interop/transaction.py:261-443 | in a batch that keeps the choice a candidate is accepted if and only if it has a name that resolves and arguments that are no list and can be repaired or, the regenerations before it counted, regenerated; its block carries exactly those arguments, the resolved name, and its own id or a new one |
| `ToolBatch.ChoiceBrokenIff` | src/agent_interop/transaction.py:150-212 | exactly when a batch is refused as a whole for the tool choice |
| `ToolBatch.ChoiceIsKept` | src/agent_interop/transaction.py:150-212 | none accepts nothing, named accepts only the named tool, required and named refuse an empty batch, auto accepts one |
| `ToolBatch.AcceptedIsNeverReserved` | src/agent_interop/gateway.py:238-257 | with no reserved-prefix tool declared, no accepted block has a reserved-prefix name |
| `ToolBatch.RegenerationsAreBounded` | src/agent_interop/transaction.py:374-412 | over all batches of a request the regenerations stay within the limit, and there are none unless a call is mandatory and a regenerator is present |
| `ToolBatch.AttemptsAreCounted` | src/agent_interop/transaction.py:374-412 | the counter grows by one for each regeneration made and only within the limit |
| `ToolBatch.Transact` | src/agent_interop/transaction.py:261-443 | one candidate's decision, and the budget it spends |
| `ToolBatch.ValidateBatchChoice` | src/agent_interop/transaction.py:150-212 | the loops refuse a batch exactly when it breaks the choice |
| `ToolBatch.ProcessToolBatch` | src/agent_interop/transaction.py:539-624 | the loop is the batch of the theorems, on the shared budget |
| `ToolBatch.CheckReservedNamespace` | src/agent_interop/gateway.py:238-257 | passes exactly when no declared name has the reserved prefix |
| `CandidateMerge.MergeKeepsExactly` | src/agent_interop/gateway.py:2455-2509 | the native calls unchanged and first, then exactly the textual calls without a native witness, in order |
| `CandidateMerge.DroppedIff` | src/agent_interop/gateway.py:2455-2509 | a textual call is dropped if and only if it has an id that a native call carries, or has none and a native call has its name and its normalised arguments |
| `CandidateMerge.DifferentCallsAreKept` | src/agent_interop/gateway.py:2493-2508 | calls without an id that differ in name or normalised arguments are both kept |
| `CandidateMerge.DifferentIdsAreKept` | src/agent_interop/gateway.py:2455-2509 | a textual call whose id no native call carries is kept, whatever its name and arguments |
| `CandidateMerge.MergeAgainIsMerge` | src/agent_interop/gateway.py:2455-2509 | merging the same textual calls again changes nothing |
| `CandidateMerge.DedupToolCandidates` | src/agent_interop/gateway.py:2455-2509 | the loop over its two lookup sets computes the merge |
| `StreamAccumulator.FeedIsOneStep` | src/agent_interop/streaming/coordinator.py:116-147 | a fragment event fails exactly when it opens one call too many or makes its call too big, and otherwise grows its own call and touches no other |
| `StreamAccumulator.FragmentsMerge` | src/agent_interop/streaming/coordinator.py:116-147 | two fragments of a call in a row are one fragment, failure included |
| `StreamAccumulator.FeedStaysWithin` | src/agent_interop/streaming/coordinator.py:116-147 | no fragment takes a call over the byte limit or the open calls over their number (`StreamTurns.EveryTurnIsWithinLimits` carries it over every stream) |
| `StreamAccumulator.BytesAreUtf8` | src/agent_interop/streaming/coordinator.py:138-147 | the length that is limited is that of the UTF-8 encoding |
| `StreamAccumulator.CompleteAllInOrder` | src/agent_interop/streaming/coordinator.py:181-189 | every open call is completed once, behind the finished ones, in the order of choice and tool index, unchanged |
| `StreamAccumulator.StepsStayDistinct` | src/agent_interop/streaming/coordinator.py:116-154 | no event opens a second call for a key (`StreamTurns.EveryTurnIsWithinLimits` carries it over every stream) |
| `StreamTurns.EveryTurnIsWithinLimits` | src/agent_interop/stream_engine.py:283-457 | for every frame sequence the accumulator has at most one open call per key, no more open calls than allowed, and no call with more argument bytes than allowed |
| `StreamTurns.DrainedInOrder` | src/agent_interop/stream_engine.py:458-471 | for every stream, the calls drained at the end of the turn are those the stream completed, in that order, and behind them every call it left open, once, by choice and tool index |
| `StreamTurns.TurnCandidates` | src/agent_interop/stream_engine.py:734-762 | for every stream, the native candidates are exactly the drained calls with a name, in order and unchanged, none above the byte limit |
| `PendingToolCalls.PendingToolCallAccumulator.StartCall` | src/agent_interop/streaming/coordinator.py:116-128 | starts or continues a call, or refuses one too many |
| `PendingToolCalls.PendingToolCallAccumulator.FeedArguments` | src/agent_interop/streaming/coordinator.py:138-147 | appends within the byte limit, or refuses and changes nothing |
| `PendingToolCalls.PendingToolCallAccumulator.CompleteAllPending` | src/agent_interop/streaming/coordinator.py:181-189 | the loop completes the open calls in key order |
| `StreamAssembly.HeardIsRead` | src/agent_interop/stream_engine.py:283-457 | for every frame sequence: the loop gets to the end of the turn if and only if no received item ends it, and then the turn is read off the items: all the text, the last usage and stop reason, every finished call in order and every open one put together from its fragments; otherwise the first item that ends it decides how, and the text before it is in the log |
| `StreamOutcomes.TextIsShown` | src/agent_interop/stream_engine.py:358-367 | without a candidate: the log is all the text the backend sent, no call, and a clean end with the last usage and stop reason, text held back or not |
| `StreamOutcomes.BatchIsShown` | src/agent_interop/stream_engine.py:470-602 | with candidates and none private: all of them, native ones put together and textual ones found, are decided together, and the log is the text around them and then the whole batch or its rejection |
| `StreamOutcomes.ContinuationIsShown` | src/agent_interop/stream_engine.py:493-536 | with private ones: the loop is given exactly these and the text held back, and what it answers takes the place of the turn; each way it can fail |
| `StreamOutcomes.FailedSearchIsShown` | src/agent_interop/stream_engine.py:478-491 | where looking for calls in the text raises nothing more is said |
| `StreamOutcomes.RefusalIsShown` | src/agent_interop/stream_engine.py:122-282 | what is said when the stream is refused before the first frame |
| `StreamOutcomes.NothingEmptyIsSaid` | src/agent_interop/stream_engine.py:555-590 | nothing said at the end of a turn is an empty text |
| `StreamOutcomes.TextsAreParts` | src/agent_interop/stream_engine.py:524-533 | the texts of a continuation are exactly its parts that are text, in order |
| `StreamOutcomes.WrapperAdds` | src/agent_interop/gateway.py:3151-3158 | an exception adds one error and one stop, and nothing else does |
| `StreamEngine.RecordIs` | src/agent_interop/stream_engine.py:644-690 | the record succeeds if and only if the stream gets to its clean end and the evidence is recorded, stays active if and only if the stream is silent, and fails otherwise |
| `StreamEngine.StreamIsWellFormedIff` | src/agent_interop/stream_engine.py:122-697 | for every frame sequence and every collaborator: text and calls, then one error or at most one usage update, then one stop with the record already final, and TOOL_CALL as the reason of a clean end after a call, if and only if the stream stops exactly once; with nothing raising after the stop, if and only if it is not a native stream that asks for something private and is continued without a call part or a candidate |
| `StreamEngine.StreamStops` | src/agent_interop/gateway.py:3081-3158 | how often any stream stops: once, except for that branch (never) and exceptions after the stop (twice) |
| `StreamEngine.SilentIsItsBranch` | src/agent_interop/stream_engine.py:789-844 | that condition, the guard of the branch, holds if and only if the end of the turn emits neither a call nor a stop |
| `StreamExceptions.SilenceHappens` | src/agent_interop/stream_engine.py:840-844 | a concrete native stream that never stops, whose record stays active and whose reservation stays open |
| `StreamExceptions.SecondStopHappens` | src/agent_interop/stream_engine.py:576-591 | a concrete rejected batch whose stream-safety recorder raises: two stops |
| `StreamExceptions.ClosingStopsAgain` | src/agent_interop/gateway.py:3081-3158 | a concrete stream that ends well and whose transport raises on closing: two stops |
| `StreamEngine.NothingEarly` | src/agent_interop/stream_engine.py:291-457 | no call is emitted before the last frame is consumed, and no text either when text is held back |
| `StreamEngine.EngineEnds` | src/agent_interop/stream_engine.py:122-697 | how the engine alone leaves the log, the record and the status, by cases of the end of the turn |
| `StreamEngine.CallsAreTheDecision` | src/agent_interop/stream_engine.py:470-602 | the calls a client sees are those of one decision, complete and in order, or none |
| `StreamEngine.AllOrNone` | src/agent_interop/stream_engine.py:470-602 | under the atomic policy all of a turn's candidates reach the client or none does |
| `StreamEngine.RelayShowsPrefix` | src/agent_interop/stream_engine.py:789-844 | a relayed continuation shows the calls among its parts and then, in order and under their ids and names, exactly the candidates before the first whose arguments do not parse: all of its calls if and only if every argument parses, and otherwise the stream ends in an exception |
| `StreamEngine.ReservationSettledIff` | src/agent_interop/stream_engine.py:164-267 | the reservation is released when nothing was sent, estimated on an error status, and otherwise settled if and only if the stream gets to its clean end, with the final usage if there is one; every other exit leaves it open |
| `StreamEngine.NoBudgetNoReservation` | src/agent_interop/stream_engine.py:164-267 | without a budget there is no reservation |
| `StreamChunks.RecutStreamsAreAlike` | src/agent_interop/stream_engine.py:291-457 | the same output cut differently into frames, text deltas and fragments is the same stream: event for event when text is held back, up to where text is cut otherwise, size-limit failures included |
| `StreamChunks.UncutIsSame` | src/agent_interop/stream_engine.py:335-424 | putting neighbouring pieces together first makes no difference to the frame loop |
| `StreamChunks.FramesAreFlat` | src/agent_interop/stream_engine.py:291-457 | frame boundaries make no difference to the frame loop |
| `StreamLoop.Consume` | src/agent_interop/stream_engine.py:335-430 | one decoded event, on the mutable accumulator |
| `StreamLoop.Listen` | src/agent_interop/stream_engine.py:291-447 | the frame loop with its early exits |
| `StreamLoop.EmitBatchDecision` | src/agent_interop/stream_engine.py:702-732 | the rejection's error and stop, or every accepted call in order; an exception when the rejection's error cannot be built |
| `StreamLoop.EndBuffered` | src/agent_interop/stream_engine.py:470-596 | the end of a turn with text held back |
| `StreamLoop.EndNative` | src/agent_interop/stream_engine.py:597-602 | the end of a turn with native calls, private continuation included |
| `StreamLoop.RelayTurn` | src/agent_interop/stream_engine.py:789-844 | what a native private continuation emits, up to the first call whose arguments do not parse |
| `StreamLoop.RunSendStream` | src/agent_interop/stream_engine.py:122-697 | the whole method is the engine of the theorems |
| `StreamDispatch.StopsOnceIff` | src/agent_interop/gateway.py:3081-3319 | over both ways a streaming request can go: with nothing raising after the stop, it stops exactly once if and only if its route buffers unverified streams or the engine's stream would not be silent |
| `StreamDispatch.WellFormedIff` | src/agent_interop/gateway.py:3081-3319 | and it is well-formed if and only if, besides, a buffered response with calls has the tool-call stop reason, which the engine enforces and the buffered path passes on |
| `StreamDispatch.DirectHasNothingPrivate` | src/agent_interop/gateway.py:3248-3292 | on a route that buffers, what goes to the engine enables no private tool: no stream there is silent, relays or has a private call to answer |
| `StreamDispatch.BuffersIff` | src/agent_interop/gateway.py:3251-3300 | when a stream waits for a validated response |
| `StreamDispatch.EnabledIff` | src/agent_interop/gateway.py:2302-2336 | which capability enables which internal tool |
| `StreamDispatch.ResponseIsShown` | src/agent_interop/gateway.py:3302-3319 | a buffered response is shown whole: all its text, all its calls, its usage unless it is nothing, and its own stop reason; an error as just that |
| `StreamDispatch.BufferedRecord` | src/agent_interop/gateway.py:3168-3193 | how the record of a buffered stream ends |
| `StreamDispatch.EmitResponse` | src/agent_interop/gateway.py:3302-3319 | a buffered response as events: an error and a stop, or parts, usage and stop in order |
| `StreamDispatch.StreamDispatch` | src/agent_interop/gateway.py:3160-3205 | the policy sends the request to the ladder or to the engine, the record being final before the ladder's first event |
| `StreamDispatch.HandleStream` | src/agent_interop/gateway.py:3081-3158 | the wrapper around both ways is the dispatch of the theorems |
| `StreamTransactions.StreamedCallsAreDecided` | src/agent_interop/stream_engine.py:538-591 | with the transaction behind the stream: each call a client sees of a decided turn names a declared tool and no reserved one, carries its candidate's arguments as they were repaired or regenerated, has an id, its candidate's if it had one, and comes in candidate order; atomic means all of the turn's candidates or none |
| `StreamTransactions.AtomicBatchesAreAtomic` | src/agent_interop/transaction.py:539-624 | the transaction's atomic policy is the one the stream's all-or-none result needs |
| `StreamPrivacy.ContinuedIsPublic` | src/agent_interop/private_loop.py:540-587 | what the private loop hands back to a stream mentions no reference of any round and has no enabled or reserved call among its parts and no enabled candidate |
| `StreamPrivacy.PartsAreBlocks` | src/agent_interop/stream_engine.py:813-818 | a relayed part is the text or the call of its block, unchanged |
| `StreamPrivacy.ContinuedIsLastTurn` | src/agent_interop/private_loop.py:540-587 | what a stream receives from the loop is the model's last turn without its private blocks and enabled candidates |
| `StreamPrivacy.ContinuationRoundsMatch` | src/agent_interop/stream_engine.py:497-510 | whatever a stream continues with, every round of the continuation shows the model matching calls and results |
| `StreamPrivacy.RelayedIsPublic` | src/agent_interop/stream_engine.py:789-844 | what a native stream relays of a continuation mentions no reference and has no enabled call; it has no reserved call if and only if none of the continuation's candidates has a reserved name, up to the first whose arguments do not parse |
| `StreamPrivacy.RelayedNames` | src/agent_interop/stream_engine.py:822-836 | the relayed calls go by the names of the candidates before the first whose arguments do not parse, one each |
| `PrivacyExceptions.ReservedCallIsRelayed` | src/agent_interop/stream_engine.py:822-836 | a concrete native stream through a loop with one enabled tool, whose model asks for another internal one: the client is shown that call |
| `StreamPrivacy.BufferedIsPublic` | src/agent_interop/stream_engine.py:498-596 | with text held back, what is emitted of a continuation mentions no reference if and only if something is decided, there is no text, or no reference straddles the place where two of the joined texts meet; only candidates that are not enabled are decided |
| `StreamPrivacy.JoinMentionsIff` | src/agent_interop/stream_engine.py:524-528 | texts that do not mention a reference one by one mention it joined if and only if an occurrence straddles the place where two of them meet |
| `PrivacyExceptions.JoinedTextsCanMention` | src/agent_interop/stream_engine.py:524-528 | a concrete stream that holds text back, whose continuation spells a pinned reference across two texts: the reference is its first event |
| `StreamPrivacy.DecidedCallsArePublic` | src/agent_interop/stream_engine.py:538-591 | with the transaction behind a stream that holds text back, no call it shows is enabled or reserved |
| `TomlStrings.FiveReplacesAreOneMap` | src/agent_interop/agents/codex.py:120-139 | the five replacements in a row are one map per character |
| `TomlStrings.ReadsBackIff` | src/agent_interop/agents/codex.py:120-139 | a basic-string reader gets the value back, and stops right behind the literal, if and only if the value has no control character but tab, newline and carriage return (and an empty value is not followed by a quote) |
| `SystemdCommand.TwoReplacesAreOneMap` | src/agent_interop/cli.py:254-268 | the two replacements are one map per character |
| `SystemdCommand.SplitsBackIff` | src/agent_interop/cli.py:254-272 | a command line of any number of arguments is split back into exactly its arguments if and only if each of them survives: free of newlines and, unless it is quoted, of carriage returns and single quotes and not a lone semicolon |
| `SystemdCommand.SplitsBack` | src/agent_interop/cli.py:271-272 | every command line whose arguments survive is split back into exactly its arguments |
| `SystemdCommand.OneArgumentIff` | src/agent_interop/cli.py:254-272 | an argument comes back if and only if it is free of newlines and, unless it is quoted, of carriage returns and single quotes and is not a lone semicolon |

## Left out

- HTTP transport, codecs, JSON Schema validation, subprocesses, the command line and its rendering: I/O or lookups.
- The ladder of attempts behind a buffered stream and `_assemble_response`: its answer is arbitrary; ref-registry pinning and evidence records: single-branch facts.
- The repair pipeline, name canonicalisation, JSON scanning, envelope recovery and the context store: arbitrary functions with the contract their callers use (`Sane` in `ToolBatch.dfy`, `Bounded` in `Envelopes.dfy`).
- The other dialect extractors: they repeat the envelope loop, and the Mistral one does not conserve text (`extraction.py:809-821`).
- Admission: one acquisition in flight per context. `_slots()` gives child tasks the same dictionary, and two slow waits that share it would take two permits and give one back. The semaphore and `wait_for` are those of Python 3.12 and later; the project also runs on 3.11, whose semaphore is not modelled.
- Installer: regular files only (no symbolic links or other real paths), no litter of temporary files, no fsync; hashing is injective.
- AdmissionController.InferenceAdmissionController.BeginAcquire: does not read the clock; a timeout is a step that may come at any moment.
- Sessions.SessionManager.Begin: the three clock readings are parameters, and ties between equally old sessions are broken arbitrarily.
- Envelopes.Extract: the confidence score is not modelled, and candidates carry no provenance.
- Envelopes.ExtractOne: like `Extract`.
- Envelopes.ScanEnvelopes: word characters and letter case are those of ASCII, not of Unicode.
- GenerationSeam.GenerationSeam.RunStep: `exhausted_by`, the text of errors and cancellation are not modelled; an exception other than a too-large response leaves the reservation open, as in the source.
- PrivateLoop.Run: the argument parser, the executor and the extractor are arbitrary, and so is the text of what an executor answers; the caller's second extraction from the returned turn is not part of this model.
- ToolBatch.ProcessToolBatch: corrections and telemetry are not modelled; repair and regeneration are arbitrary functions of the candidate's place, name and arguments.
- StreamEngine.StreamIsWellFormedIff: an exception raised while leaving the transport or the registry after the last event is one flag for all of these places; cancellation, which ends the stream without further events, is not modelled.
- StreamAccumulator.FragmentsMerge: fragment lists are kept joined, and characters are Unicode scalar values, so a lone surrogate, which cannot be encoded, does not occur.
- StreamLoop.Listen: decoding is a parameter; diagnostics of malformed frames are not recorded.
- TomlStrings.ReadsBackIff: the reader knows the short escapes of TOML v1.0.0 and not the numeric ones, which are never written.
- SystemdCommand.SplitsBack: splitting only; systemd's later expansion of `$` and `%`, the prefixes of the executable's path and line continuation are not modelled.
