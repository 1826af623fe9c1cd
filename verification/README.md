# Sage: lifecycle, evidence and admission models

Dafny models of the parts of Sage that keep state over time or select under a bound, with proofs of
what they promise.

* **Published-package registry** (`PackageLog`, `PackageStore`, `PackageAnswers`, `PackageSystem`, `PackageRegistry`).
  registry.json holds the same facts three times: in the record states, in the `active` reference and in
  the event log. The log is replayed, read without folding, and compared with the records over every
  interleaving of one writer's atomic writes, crashes between them, and caching readers.
* **Evidence, claims and fusion** (`Evidence`, `Claims`, `Fusion`). Two-pass selection under a cap of 12,
  merging during recovery, claim coverage of what survives, and reciprocal rank fusion with exact scores.
* **Admission** (`Budget`, `Service`, `Limiter`). The daily token ledger with its two back ends and its
  interleaved clients, and the sliding-window limiter.
* **Runs and job events** (`Scripts`, `RunTimeline`, `RunStream`, `RunLaws`, `EvidenceBracket`, `JobStream`).
  The graph run with its fail-closed exits, approval loop, sandbox and evidence trace; the job event stream
  racing a writer. What a run does is a script of its answers, played up to the first fault; the methods are
  proved to do exactly that, and the laws are proved of it for all answers and all faults.
* **Controllers** (`Watchdog`, `Deploy`). Restart cooldown, recovery counting and alerts; image retention
  across apply, rollback and cleanup.

State that the program updates in place is a class or a loop here, proved equal to a function on values;
the laws are proved about those functions over all runs.

## Where the code keeps less than it seems to

* A staging that stops after the package file is written and before the registry is (a crash, or a
  registry over 8 MiB) leaves a file no record names. From then on that package and revision can never be
  staged again: every later attempt finds the file and refuses (`OrphanClosesItsRevision`).
  `FirstStagingCanOrphan` reaches such a store, `StagingEnds` says exactly when a staging leaves one, and
  `RevisionOpenIffNoFile` that a revision without a record can still get one if and only if it has no file.
* In `enforce` mode a new run for which `prepare_harness_context` returns None (no context controller)
  skips the plan gate and calls the model with neither plan binding nor frame. `EnforcedCalls` states the
  exact boundary: a stream call is backed if and only if the run is resumed or a context was prepared;
  `UnpreparedRunIsNotGated` exhibits the unbacked call.
* A run can raise after its terminal event: the fail-closed and direct-answer exits yield it inside the
  sandbox block, and closing the sandbox can still fail. `LateRaise` exhibits such a run; `TerminalDecides`
  says that a run that got to its terminal event returns if and only if neither that yield nor the closing
  after it is hit, and `ReturnsExactly` which runs return at all.
* Evidence stays open when the consumer closes the generator before the finish was through, because
  GeneratorExit is neither CancelledError nor Exception. `AbandonedRun` exhibits it; `LeftOpenExactly`
  states when evidence is left open in terms of the first call that is hit.
* The brief of missing claims is empty exactly when the evaluator calls the evidence complete, if and only
  if the case is answerable.
* The budget's clamp at zero can fire on a sequence of days if and only if some day is left and come back
  to (`ClampFiresIffDayComesBack`); on days that do not go back it never does.

## Model

| member | source | states |
|---|---|---|
| PackageLog.Find | public_agent/registry.py:351-360 | the index found has the key, and None means no record from there on has it |
| PackageLog.SoundAppend | public_agent/registry.py:123-265 | every event the lifecycle may append keeps record states, sequences, counter and `active` in agreement with the log |
| PackageLog.SoundRegistryFacts | public_agent/registry.py:172-183 | unique keys; `active` is set exactly when one record is active and equals its key and digest; that record's sequence is the counter; positive sequences are distinct |
| PackageLog.Fallback | public_agent/registry.py:211-223 | the pick is an inactive record of the same package with the highest sequence, the earliest among equals; None means there is none |
| PackageLog.FallbackIsLatestHealthy | public_agent/registry.py:209-225 | the fallback is the healthy revision activated last according to the log's activation history; there is none exactly when the history has none |
| PackageStore.RevokeFallsBackToLatestHealthy | public_agent/registry.py:201-265 | revoking the active revision is refused exactly when the log shows no other healthy activated revision of the package, and otherwise names the one activated last |
| PackageAnswers.RecordsAreStagings | public_agent/registry.py:123-148 | the records of a replayed log are exactly the staged revisions with their digests |
| PackageAnswers.StageAnswers | public_agent/registry.py:120-130 | already staged exactly when the log staged this digest, in conflict exactly when another, refused over a leftover file exactly when neither, otherwise written |
| PackageAnswers.ActivateAnswers | public_agent/registry.py:150-170 | which of no registry, wrong expectation, never staged, ever withdrawn, already active or a written activation, each read off the log |
| PackageAnswers.RevokeAnswers | public_agent/registry.py:188-248 | refused without anything active, for a wrong expectation or a key never staged; already revoked exactly when ever withdrawn; any other key not active is withdrawn without a replacement |
| PackageAnswers.ActivationTakesEffect | public_agent/registry.py:171-186 | a written activation makes its key the active reference and its record active |
| PackageAnswers.WithdrawalTakesEffect | public_agent/registry.py:226-265 | a written withdrawal leaves its key revoked and its replacement active; without one the active reference stays |
| PackageAnswers.StagingTakesEffect | public_agent/registry.py:130-148 | a written staging gives its key a candidate record and leaves the active reference |
| PackageStore.FilesNeverFail | public_agent/registry.py:372-386 | in a sound store neither activate nor revoke is ever refused because a registered file is missing or different |
| PackageStore.WriteKeepsSound | public_agent/registry.py:289-295 | a registry write keeps the registry sound and every record's file loading to its key and digest |
| PackageSystem.RunCoherent | public_agent/registry.py:46-148 | after any interleaving of writers, crashes and readers: the registry agrees with its log, every record has its file, and every cached or answered package equals a fresh load |
| PackageSystem.LogRebuildsRegistry | public_agent/registry.py:101-265 | after any run, replaying the log rebuilds the registry, and each record's state and sequence are what the log says without folding |
| PackageSystem.RunExtends | public_agent/registry.py:123-265 | later states only extend earlier ones: the log grows, files stay, revoked stays revoked, and once something is active something always is |
| PackageSystem.CurrentAlwaysAnswers | public_agent/registry.py:46-54 | once something is active, current() returns the package active at its first read, whatever happens between its two reads, and that equals a fresh load then and afterwards |
| PackageSystem.OrphanClosesItsRevision | public_agent/registry.py:130-148 | a package file without a record stays without one in every continuation, and staging that key is always refused |
| PackageSystem.StagingGoesAheadIff | public_agent/registry.py:112-134 | in a sound store a well-formed staging gets to write exactly when its package file does not exist |
| PackageSystem.StagingEnds | public_agent/registry.py:130-148 | after both writes the key has a record exactly when it had one, or had no file and the registry fits; dying in between leaves an orphan exactly when it had no record |
| PackageSystem.RevisionOpenIffNoFile | public_agent/registry.py:123-148 | a revision without a record can still get one in some continuation if and only if its file does not exist |
| PackageSystem.FirstStagingCanOrphan | public_agent/registry.py:130-148 | the first staging, dying between its two writes, leaves an orphan |
| PackageRegistry.PublishedPackageRegistry.StagePayload | public_agent/registry.py:101-148 | decides as StageDecision says; commits one staged event with its file, or changes nothing but at most the orphan file; after Ok the registry has the record, and the outcome says whether it is new |
| PackageRegistry.PublishedPackageRegistry.Activate | public_agent/registry.py:150-186 | decides as ActivateDecision says; the in-place switch of two records is exactly what the activated event means for all of them; after Ok the key's record is active, and the outcome says whether it was before |
| PackageRegistry.PublishedPackageRegistry.Revoke | public_agent/registry.py:188-265 | decides as RevokeDecision says; the in-place withdrawal and promotion are exactly what the revoked event means; after Ok the key's record is revoked, and the outcome says whether it was before |
| PackageRegistry.PublishedPackageRegistry.Conclude | public_agent/registry.py:289-295 | the registry is replaced by one write or, over 8 MiB, not at all; the answer describes what is stored |
| PackageRegistry.RaisingChangesNothing | public_agent/registry.py:101-265 | a call that raises leaves the registry as it was |
| PackageRegistry.SwitchInPlace | public_agent/registry.py:171-183 | demoting the record `active` names and promoting another equals retiring whatever is active and promoting the key |
| PackageRegistry.WithdrawInPlace | public_agent/registry.py:233-248 | the same for revoking a record and promoting its replacement |
| PackageRegistry.PublishedPackageProvider.Current | public_agent/registry.py:46-54 | succeeds exactly when something is active, answers what a fresh load gives, and keeps the cache in agreement |
| Evidence.BoundedEvidence | scripts/evaluate_book_learning_generation.py:765-794 | the two loops select exactly the first pass followed by the second |
| Evidence.BoundedShape | scripts/evaluate_book_learning_generation.py:773-794 | at most 12 items, distinct citations, only input items; below 12 every input citation is kept; passages repeat only when no input item is new in both ways |
| Evidence.SelectedAreTrimmed | scripts/evaluate_book_learning_generation.py:765-772 | every selected item is an input item, changed only by cutting its excerpt to 1200 characters |
| Evidence.FirstPassKeepsNew | scripts/evaluate_book_learning_generation.py:773-784 | an item sharing neither passage nor citation with any before it is selected unless the cap was reached |
| Evidence.BoundedIdempotent | scripts/evaluate_book_learning_generation.py:765-794 | selecting from a selection changes nothing |
| Evidence.MergeEvidence | scripts/evaluate_book_learning_generation.py:752-762 | the loop selects from the first occurrences by citation of both lists |
| Evidence.MergeHoldsBoth | scripts/evaluate_book_learning_generation.py:752-762 | below the cap a merge holds exactly the citations of both lists, and always only trimmed first occurrences by citation |
| Evidence.MergeKeepsPassages | scripts/evaluate_book_learning_generation.py:752-762 | merging anything into a selection loses none of its passages |
| Evidence.RecoverEvidence | scripts/evaluate_book_learning_generation.py:319-349 | the recovery loop folds every rewrite's selection into the evidence |
| Evidence.RecoveryKeepsPassages | scripts/evaluate_book_learning_generation.py:343-348 | over any number of rewrites no first-round passage is lost and the evidence stays a selection |
| Evidence.RecoveryAddsEverything | scripts/evaluate_book_learning_generation.py:319-349 | below the cap the evidence holds exactly the citations of the first round and of every rewrite's selection |
| Common.StripTakesEnds | evals/book_learning_claims.py:106-127 | stripping takes away exactly the spaces at both ends |
| Claims.EvidencePassageIds | evals/book_learning_claims.py:424-432 | refuses evidence with a blank passage id and otherwise gives the ids the planner sees |
| Claims.PassageIdsAreStripped | scripts/evaluate_book_learning_generation.py:742-749 | the ids are exactly the non-blank stripped passage ids of the evidence |
| Claims.ObservedMeans | evals/book_learning_claims.py:106-127 | an id is observed exactly when it is not blank and some given id strips to it |
| Claims.MissingAreUnmet | evals/book_learning_claims.py:420-421 | missing are, in order, the claims in mode all that lack some passage and those in mode any that lack every one |
| Claims.MissingClaimBrief | evals/book_learning_claims.py:106-127 | the brief picks, in order, exactly the claims whose mode asks for more than the observed ids; nothing for an unanswerable case |
| Claims.EvaluateCase | evals/book_learning_claims.py:317-370 | an id is missing exactly when its claim lacks some passage (all) or every passage (any), and covered otherwise; unrounded coverage; complete exactly when answerable and no claim lacks anything |
| Claims.ReceiptMeans | evals/book_learning_claims.py:317-370 | the same for any observed passages |
| Claims.CoverageIsShare | evals/book_learning_claims.py:317-370 | unrounded coverage times the required claims is the covered ones; zero where none is required |
| Claims.CompleteByCount | evals/book_learning_claims.py:344-352 | counting covered claims decides completeness |
| Claims.MissingShrinks | evals/book_learning_claims.py:106-127 | with more passages the missing claims are the old ones minus those now covered, in both modes |
| Claims.RecoveryNeverLosesCoverage | scripts/evaluate_book_learning_generation.py:321-353 | from any hits and rewrites the missing claims only shrink and the unrounded coverage gain is not negative |
| Claims.BriefEmptyIffEvidenceComplete | evals/book_learning_claims.py:106-127 | empty brief and complete evidence coincide if and only if the case is answerable, and then both list the same claims |
| Fusion.FuseRankedPassages | evals/book_learning_query_rewrite.py:153-175 | the best topK passages of all routes, best first by summed reciprocal ranks, then first sight: no repeats, every passage left out is behind every one kept, and none is left out while there is room |
| Fusion.BoardSortsLikeRoutes | evals/book_learning_query_rewrite.py:161-174 | sorting by the two tallied dictionaries is sorting by the scores and first sights the routes themselves define |
| Fusion.RankingIsOrdered | evals/book_learning_query_rewrite.py:169-175 | the ranking holds every passage of every route once, each ahead of all later ones |
| Fusion.ScoresAreReciprocalRanks | evals/book_learning_query_rewrite.py:163-168 | for duplicate-free routes a score is the sum of one over the constant plus the 1-based rank, over the routes that rank the passage |
| Fusion.Dedupe | evals/book_learning_query_rewrite.py:178-179 | no duplicates, exactly the non-blank values, in the order of their first occurrences |
| Fusion.HeadSurvives | evals/book_learning_query_rewrite.py:60-69 | the first passage of a non-empty original route is in the fused top_k whatever the rewrite holds |
| Fusion.FusionRespectsDominance | evals/book_learning_query_rewrite.py:161-175 | a passage ranked before another in every route holding the other precedes it in the full order |
| Fusion.FusedPrefixes | evals/book_learning_query_rewrite.py:169-175 | no repeats, and a smaller top_k gives a prefix |
| Fusion.SingleRouteFusesToItself | evals/book_learning_query_rewrite.py:161-175 | one duplicate-free route fuses to its own prefix |
| Budget.DailyTokenBudget.ReserveTokens | public_agent/budget.py:57-62 | serves a reserve as its back end's step says, leaving the other store alone |
| Budget.DailyTokenBudget.CommitTokens | public_agent/budget.py:64-68 | serves a commit as its back end's step says |
| Budget.DailyTokenBudget.ReleaseTokens | public_agent/budget.py:70-73 | serves a release as its back end's step says |
| Budget.DailyTokenBudget.RemainingTokens | public_agent/budget.py:75-78 | serves a query as its back end's step says |
| Budget.BackEndsAgree | public_agent/budget.py:80-141 | from a fresh start, any calls on any days get the same answers from both back ends, and the stored record decodes to the ledger in memory |
| Budget.LedgerBalances | public_agent/budget.py:57-73 | while no day is left and come back to, `reserved` is what unsettled calls of the day hold, `used` what settled ones were charged, and their sum exceeds the limit at most by the day's overruns |
| Budget.AdmittedIffItFits | public_agent/budget.py:57-78 | a reserve is admitted exactly when what today's calls hold and were charged and one more reservation fit the limit; remaining is the rest of the limit |
| Budget.CommitAddsToUsed | public_agent/budget.py:64-68 | a commit on its day adds a positive amount to `used` and nothing otherwise |
| Budget.FileRefusesIffInvalid | public_agent/budget.py:118-135 | a state file is refused exactly when it is not a record with counts from zero up, and is then left as it is |
| Budget.ClampNeverFires | public_agent/budget.py:66-73 | in such runs a settled call of the day always has its reservation still reserved |
| Budget.DaysInOrder | public_agent/budget.py:136-141 | days that do not go back never come back, so both laws hold on them |
| Budget.ClampFiresIffDayComesBack | public_agent/budget.py:66-73 | on a sequence of days some run fires the clamp if and only if some day is left and come back to |
| Service.Answer | public_agent/service.py:96-131 | with either back end or no budget: exactly when each outcome is given, what an answer says, and how an admitted call leaves the store |
| Service.EffectOnStore | public_agent/service.py:110-125 | what an admitted call does to the ledger of its day in either back end: nothing on an error, the reservation kept on cancellation, the charge on a reply |
| Service.AnswerIsTwoSteps | public_agent/service.py:112-125 | whatever other calls do in between, an answer is an admission and the settling of exactly that admission: given back on an error, charged on a reply, left outstanding on cancellation |
| Limiter.SlidingWindowRateLimiter.CheckClient | public_agent/limiter.py:35-46 | the loop leaves the client's deque and answers as Check says, and touches no other client |
| Limiter.AdmissionsPerWindow | public_agent/limiter.py:35-46 | for readings in order, no window (t - w, t] holds more than `requests` checks answered allowed |
| Limiter.RefusedIffWindowFull | public_agent/limiter.py:42-46 | a check is answered allowed exactly when the window ending now holds fewer than `requests` allowed ones; then `remaining` counts what is left and there is nothing to wait for; refused, nothing remains |
| Limiter.RetryHintBounds | public_agent/limiter.py:43 | the hint is between 1 and the window, under a millisecond early, under a second late, and not early on a millisecond grid |
| Limiter.RetryIsHonoured | public_agent/limiter.py:42-44 | after any refusal in any run the hint has those bounds for the time the oldest admission of the window leaves it, and on a millisecond grid a check at that time is answered allowed |
| Scripts.Perform | api/coding.py:592-1351 | the acts are made up to the first that is interrupted, and what follows them is played from there |
| Scripts.PlayCut | api/coding.py:592-1351 | undisturbed, all acts of a script and its flow; otherwise the acts up to the first one a fault hits, and that fault |
| RunTimeline.AdmissionScript | api/coding.py:606-684 | a resumed enforce run goes on exactly with a loaded plan, a valid scope and a checkpoint found for that plan's binding; otherwise it ends with one error terminal event |
| RunTimeline.Admission | api/coding.py:606-684 | does exactly that, up to the first fault, and hands on the loaded plan |
| RunTimeline.ContextScript | api/coding.py:685-812 | goes on exactly when the prepared context allows the model; otherwise ends with one error terminal event |
| RunTimeline.ContextEventsShown | api/coding.py:767-792 | every event of the prepared context is shown, in order, but for the usage event when the status event shows it |
| RunTimeline.BlockedContextEnds | api/coding.py:794-812 | a blocked context returns exactly when nothing interrupts it, with its error event and then its terminal event last |
| RunTimeline.Context | api/coding.py:685-812 | does exactly what the context script says, up to the first fault |
| RunTimeline.CapabilitiesScript | api/coding.py:814-889 | goes on exactly when skills validate and the MCP lifecycle is the one the plan froze |
| RunTimeline.Capabilities | api/coding.py:814-889 | does exactly that, up to the first fault |
| RunTimeline.NewTurnScript | api/coding.py:1030-1161 | in enforce mode goes on exactly with a captured, compared, matched plan and its frame; in shadow mode always |
| RunTimeline.NewTurnGate | api/coding.py:1030-1161 | does exactly that, up to the first fault, and opens the gate with that plan and frame in enforce mode, without a binding in shadow mode |
| RunTimeline.ResumeScript | api/coding.py:1162-1224 | goes on exactly when the resumed plan matched and its frame was made |
| RunTimeline.ResumeGate | api/coding.py:1162-1224 | does exactly that, up to the first fault, and opens the gate with the admitted plan |
| RunTimeline.AssembleScript | api/coding.py:900-1244 | goes on exactly when the gate passes and no direct answer was given; otherwise ends with one terminal event, completed if the gate passed |
| RunTimeline.Assemble | api/coding.py:900-1244 | does exactly that, up to the first fault, with the gate it opened |
| RunTimeline.FailClosed | api/coding.py:254-291 | yields the two failure events and returns, up to the first fault |
| RunTimeline.FailClosedEvents | api/coding.py:254-291 | that is an error event and then an error terminal event, and a return exactly when neither is interrupted |
| RunStream.StreamEvents | api/coding.py:1285-1313 | plays exactly EventsScript: every event passed on up to a nameless graph-level approval, which raises (RunLaws.EventsPassedOn); the last graph-level approval and the text are kept |
| RunStream.OneTurn | api/coding.py:1286-1333 | one call and its round; resumes exactly when the round was answered, with the value that answers its last graph-level approval |
| RunStream.Execute | api/coding.py:1280-1333 | plays exactly the loop: a call for every answered round and one more, going on when that one asks for no approval, with all the text |
| RunStream.Deerflow | api/coding.py:592-1351 | the whole run: opening, the sandbox closed however its block ends, and the closing |
| RunLaws.LoopLaws | api/coding.py:1280-1333 | the loop makes exactly the calls its answered rounds ask for, goes on exactly when the next round asks for no approval and otherwise raises |
| RunLaws.ShownBeforeModel | api/coding.py:685-1161 | a run that asks the model has shown exactly its message, retrieval, memories, context, catalog, book learning and tools events, and then what its plan gate found, in this order |
| RunLaws.EventsPassedOn | api/coding.py:1303-1313 | every event up to and with the first approval that names no interrupt reaches the reader as it is, in order, and nothing else does but one event right behind each retrieval |
| RunLaws.LoopRelays | api/coding.py:1284-1315 | the events of the loop are those of its rounds, one after the other |
| RunLaws.TextJoins | api/coding.py:1303-1304 | the reply is the text deltas joined in order |
| RunLaws.TurnsAreNumbered | api/coding.py:1328-1333 | call k carries attempt + k; the first is the run's own; every later one resumes, addressed to the interrupt of the last graph-level approval of the round before it, with that approval's id and its choice |
| RunLaws.CallsEnd | api/coding.py:1308-1333 | every round before the last call asked for a properly named approval and got a choice; the round of the last call did not |
| RunLaws.CallsExactly | api/coding.py:1280-1333 | the model is called only if every check passed; the calls are one and one more per approval answered in a row, all of them where nothing goes wrong |
| RunLaws.ModelCalledOnlyIf | api/coding.py:606-1224 | the model is called only if every fail-closed gate is open, each spelled out, and is called then if nothing goes wrong on the way |
| RunLaws.EnforcedCalls | api/coding.py:1028-1224 | in enforce mode every stream call carries a plan compared and matched before, and on resume a checkpoint checked against it, if and only if the run is resumed or a context was prepared |
| RunLaws.UnpreparedRunIsNotGated | api/coding.py:1030-1036 | an undisturbed enforce run without prepared context calls the model with no binding and no frame |
| RunLaws.SandboxClosedOnce | api/coding.py:890-1335 | the sandbox is opened once exactly when nothing before stops the run, and closed as often |
| RunLaws.TerminalDecides | api/coding.py:592-1351 | a terminal event is the last event, at most the closing of the sandbox follows it, and the run returns exactly when neither of the two is hit |
| RunLaws.ReturnsExactly | api/coding.py:592-1351 | a run returns exactly when no fault hits it and, if it gets to ask the model, the rounds end without an open approval and the text is not blank |
| RunLaws.ReturnStatus | api/coding.py:592-1351 | a returned run ended with its terminal event, completed exactly when every check passed |
| RunLaws.LateRaise | api/coding.py:1334-1335 | an enforce run fails closed inside its sandbox and then raises because closing the sandbox fails |
| RunLaws.EventsOfRun | api/coding.py:1346-1351 | among the events of a run only the last can be terminal, and it is when the run returned |
| EvidenceBracket.RuntimeTimeline | api/coding.py:445-507 | does exactly what the bracket says around the run inside, for all faults of both |
| EvidenceBracket.Bracket | api/coding.py:459-506 | the try block and its except clauses over any events |
| EvidenceBracket.RelayedDeliversAll | api/coding.py:463-490 | every event is delivered in order, with only the diff in between, right before the terminal event |
| EvidenceBracket.AppendedBeforeDelivered | api/coding.py:483-490 | every event that is not terminal is appended once, right before its delivery |
| EvidenceBracket.BracketExactly | api/coding.py:459-506 | the calls up to the first one hit, and one abort exactly when that left begun evidence unfinished and the generator was not closed; a failing abort replaces the end |
| EvidenceBracket.LeftOpenExactly | api/coding.py:491-506 | evidence is left open exactly when, between begin and finish, the generator was closed, or the block ended otherwise and the abort was hit too |
| EvidenceBracket.ClosedOnce | api/coding.py:459-506 | evidence is closed at most once, a terminal event is delivered only last, and the bracket returns exactly when the run inside did and no call was hit |
| EvidenceBracket.RunsAreRelayable | api/coding.py:463-490 | the laws of the bracket hold of every run with a silent adapter |
| EvidenceBracket.AbandonedRun | api/coding.py:491-506 | a run whose consumer closes the generator at its first event leaves evidence open |
| JobStream.ListIsSlice | api/knowledge.py:857 | on contiguous events the query is a slice of the log |
| JobStream.StreamJob | api/knowledge.py:853-867 | against a growing log the frames are the log from `after` to the cursor, also on disconnect; it closes in the first round whose job is terminal and fully sent |
| JobStream.ClosesInTime | api/knowledge.py:856-865 | once the log stops growing, closing takes exactly max(1, ceil(remaining / 200)) rounds |
| JobStream.ReadAllPages | api/knowledge.py:793-810 | following next_cursor while has_more delivers exactly the rest of the log |
| Watchdog.Watchdog.CheckOnce | scripts/cc_connect_watchdog.py:344-419 | one run writes, restarts and notifies exactly as RunOnce says |
| Watchdog.Watchdog.AwaitRecovery | scripts/cc_connect_watchdog.py:396-419 | the attempts after a restart end with the first that is healthy or not worth a restart |
| Watchdog.RunOnceRecords | scripts/cc_connect_watchdog.py:344-419 | success exactly on a healthy final report; status, failures, restarts, recoveries and the pending notice after one run |
| Watchdog.RunOnceTells | scripts/cc_connect_watchdog.py:302-419 | restarts exactly on a restartable failure outside the cooldown; alerts exactly on a final failure no restart repairs that was not the last one alerted; announces exactly what is due |
| Watchdog.RunLawful | scripts/cc_connect_watchdog.py:302-419 | over any checks with the clock not going back: restarts a cooldown apart, recovery_count counts persisted recoveries, no alert repeats the one before it in its episode |
| Watchdog.RestartsPerSpan | scripts/cc_connect_watchdog.py:371-386 | a span of length T holds at most T / cooldown + 1 restarts |
| Deploy.ApplyDecides | scripts/deployctl.py:525-590 | deploys exactly a checked-out commit tag with no step failing; then the record names it and the release before, all its images exist and it runs; otherwise the record stays |
| Deploy.RollbackDecides | scripts/deployctl.py:592-629 | rolls back exactly to a commit tag with all its images and no step failing; then the record names it and the release before; images never change |
| Deploy.DeployController.ApplyRelease | scripts/deployctl.py:525-590 | images, record and running version after apply, failing at any step |
| Deploy.DeployController.RollBackTo | scripts/deployctl.py:592-629 | the same for rollback, with its image check |
| Deploy.DeployController.CleanUp | scripts/deployctl.py:376-392 | removes Sage images of unrecorded release tags only |
| Deploy.CleanupLeavesRecordedOnly | scripts/deployctl.py:376-392 | a cleanup that succeeds leaves, of Sage images with a commit tag, exactly those of the recorded releases |
| Deploy.RunRetains | scripts/deployctl.py:376-629 | any operations failing anywhere keep all four images of the recorded current and previous release |
| Deploy.PreviousAlwaysAvailable | scripts/deployctl.py:597-623 | rolling back to the recorded previous release always passes its image check |
| Deploy.RestoreFindsItsImages | scripts/deployctl.py:563-573 | apply's restore path finds its images, so it fails only for another reason, and the record is unchanged |

## Left out

- PackageStore.StageDecision: the canonical JSON, SHA-256 and the package rules are one loader function from bytes to an optional package; temporary files, permissions and symbolic links are not modelled.
- PackageRegistry.PublishedPackageRegistry: timestamps, actors, reasons and event ids are not stored in records and events, since nothing decides on them; bootstrap, stage_path and status are not modelled; registry files edited by hand are not.
- PackageRegistry.PublishedPackageProvider.Current: both of its file reads see one disk; reads with steps of others between them are PackageSystem.CurrentAlwaysAnswers.
- PackageStore.RevokeDecision: the reason is taken as str.strip() leaves it.
- Evidence.Normalize: only the fields selection reads are named; the others are one carried field.
- Claims.EvaluateCase: rounding to four places and the per-claim receipts are not modelled; provider errors carry no coverage and are left out.
- Fusion.Ahead: the passage id at the end of the sort key is left out, because first sights are distinct and it never decides; scores are exact instead of floating point.
- Budget.DailyTokenBudget: one day reading per call; the JSON text of the state file is a record, blank, or undecodable.
- Service.Answer: retrieval and the pattern checks are given as their outcomes, citations as the evidence they quote; request ids and receipts are left out.
- Limiter.SlidingWindowRateLimiter.CheckClient: clock readings are exact and taken in lock order; the program reads the clock before it takes the lock, so nothing is claimed for readings out of that order.
- Scripts.Perform: an interruption is allowed at every act, which includes some the program would catch and turn into a fail-closed exit; the claims hold for those too. The lease around the run is taken not to fail.
- RunTimeline.ContextScript: event payloads are reduced to kind and status.
- RunStream.ApprovalValue: ids are taken as str.strip() leaves them.
- EvidenceBracket.RunsAreRelayable: assumes an adapter that yields no terminal event of its own; the legacy runtime branch is not modelled.
- JobStream.StreamJob: the repository is a log with contiguous sequences that only grows, and a job's latest sequence is its length.
- Watchdog.State: timestamps that decide nothing are left out; a crash between a delivered alert and its write is not modelled.
- Deploy.ApplyFate: commands are reduced to whether they fail and what a failing build or removal had done; preflight, backups and migrations only to whether they fail.
- HTTP routing, model calls, embeddings, retrieval benchmarks, answer acceptance and claim parsing are not part of this model.
