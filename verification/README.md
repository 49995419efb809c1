# Verified model of the agent runtime's state machines and text algorithms

The repository backs an API-testing platform with an LLM agent on top.  An agent run plans tool calls;
some need a person's approval, some are interrupted while a backend is working on them, all leave a
trail that other parts of the platform read.  This project models the parts of that machinery where a
mistake would run something nobody agreed to, send something twice, or garble an answer, and proves
what they keep.

Most state machines come in three layers.  A `...Model` file holds the rows and the function each
operation is; a file with a class holds the same operations as methods that change the rows step by step,
and each method is proved to do what the function says; the `...Runs` and `...Safety` files prove what
every sequence of operations keeps, in any order and from any starting point the protocol allows.

| files | what they model |
|---|---|
| `ApprovalModel`, `ApprovalStore`, `ApprovalRuns`, `ApprovalSafety`, `ApprovalVerdicts`, `ApprovalExpiry` | approvals, their lineages and epochs, the mutation log, the execution gate, batch expiry |
| `ReconcileModel`, `Freshness`, `RecoveryModel`, `RunLedger`, `RunResume`, `RecoveryRuns`, `RecoverySafety`, `ReconcileAnswers`, `ResumeEffects` | settling uncertain tool calls, migration blocks, the checkpoint freshness gate, resuming a run |
| `JsonText`, `JsonExtract`, `ControlRepair`, `QuoteRepair`, `JsonRepair`, `LineBreaks`, `InnerQuotes`, `Text` | finding and repairing JSON in a model's answer |
| `Calendar`, `Decimal`, `CronExpression`, `CronTimes`, `CronSearch`, `CronMeaning` | cron expressions and the search for their times |
| `JsonTree`, `SensitiveData`, `JsonPaths` | masking, encrypting and searching JSON values |
| `RunEvents` | the event log of an AI run and the clients that poll it |
| `MemoryModel`, `MemoryStore`, `MemoryRuns`, `MemoryTrust`, `MemoryScores` | project memories: scores, counters, feedback, trust |
| `ToolCalls`, `Listings`, `Wrappers` | shared statuses, sorted query results, Option and Result |

`dafny verify dfyconfig.toml` checks everything.

## What the proofs found

These are places where the code does something its documentation or its shape would not lead one to
expect.  The model follows the code; each point is a theorem that says exactly when it happens, with an
input that shows it.

- An approval made for a replacement call gets no expiry, so the expiry scanner never finds it
  (`ApprovalExpiry.ReplacementsNeverFallDue`).
- A call without a scope hash never passes the gate, even when its approval was approved
  (`ApprovalSafety.ApprovedWithoutScopeIsHeldBack`); apart from that the gate is exact
  (`ApprovalSafety.GateAnswersExactly`).
- Resolving a migration block does not look at the status of the run: the last block resolved turns a
  cancelled, failed or completed run into a running or paused one
  (`RecoverySafety.ResolvingTheLastBlock`, `RecoverySafety.CancelledRunRevived`).
- `claim_next` refuses only uncertain and reconciling calls.  Leasing, or holding back for approval, a call
  that needs migration leaves its block open with nothing waiting for it
  (`RecoverySafety.ClaimingForgetsTheBlock`); the histories here assume that this is not done, and
  `RecoverySafety.ClaimingIsAllowedExactlyWhen` says that claiming is otherwise covered.
- A cron expression whose only day is 29 February raises from 1 March 2096 to the end of 23 February 2099 and no
  longer from 25 February on: the next match is in 2104, beyond the search bound
  (`CronTimes.NoAnnualDayRaises`, `CronTimes.LeapDayIsEnough`).  With any weekday allowed the search never
  raises exactly when some allowed day exists in every year
  (`CronTimes.ExpressionNeverRaisesExactlyWhenAnnual`).
- An ordinary expression can raise when both the day and the weekday are restricted: `0 0 1 1 1` does after
  New Year 2018 (`CronTimes.NewYear2018`).  Three weekdays, or seven days on end, are always enough
  (`CronTimes.AlwaysFindsNeverRaises`), and 400 years decide for any expression (`CronTimes.OneCycleDecides`).
- `cron_occurrences` with a limit of zero or less does not parse its expression, so a malformed one is
  accepted (`CronSearch.CronOccurrences`).
- The path that is found for a key leads back to it exactly when no part of the way has a dot and the way is not
  the empty key at the top (`JsonPaths.FoundPathsResolve`).  Otherwise it is read as a longer way, which may
  lead nowhere or to another value (`JsonPaths.DottedKeyAlone`, `JsonPaths.DottedKeyBesideItsParts`), or it is
  the empty path, which leads to the whole value.  An empty key at the top that comes first hides later matches of
  its own name, and under another name without letters and digits the empty path is returned for it
  (`JsonPaths.MatchesButHasNoPath`, `JsonPaths.EmptyKeyFirst`).
- A raw line break inside a string is kept only if no comma or closing brace or bracket comes next, whitespace
  aside: before one of these the rest of the string is taken for text outside it
  (`LineBreaks.LineBreakInAString`).  A missing closing quotation mark is put back before them, but not before a
  colon or at the end of the text, where the line break is escaped and the string goes on
  (`LineBreaks.MissingQuoteIsPutBack`).
- The two string scanners do not compose: by escaping a quotation mark the second can draw a line break into
  a string that the first had seen end before it (`JsonRepair.LineBreakDrawnIn`).  The output is clean, and
  repairing again changes nothing, exactly under the condition of `JsonRepair.RepairIsCleanExactlyWhen`.
- The development plan under `docs/` says a memory an agent inferred must not become active without an
  execution that supports it.  It becomes active in exactly two ways, by such an execution or by feedback
  (`MemoryTrust.InferredBecomesActiveExactlyWhen`): feedback that calls it validated, at any time
  (`MemoryTrust.InferredMemoryActivatedOnItsUsersWord`), or positive feedback while it waits for revalidation and
  its scores have come back far enough (`MemoryTrust.InferredMemoryActivatedUnvalidated`).
- A contradiction of high severity, or one that repeats a failure, makes a memory suspect even if a critical one had
  asked for its revalidation before (`MemoryScores.TheLastDemotionDecides`).
- The "recent" validation and contradiction counters of a memory always equal the total ones: nothing ever
  resets them (`MemoryTrust.CountersTellTheEvents`).

## Model

| member | source | states |
|---|---|---|
| ApprovalStore.Store.CreatePendingApproval | app/services/agent_approval_service.py:184-265 | asking for approval opens a lineage with a pending approval of epoch 1 for the call; a call whose current approval is pending, and a lineage that exists, are left as they are |
| ApprovalStore.Store.ApproveCall | app/services/agent_approval_service.py:371-451 | the whole new state and the answer of an approve: refused with a conflict event, expired on the way and refused, or granted |
| ApprovalStore.Store.RecordConsent | app/services/agent_approval_service.py:390-440 | what granting writes: approval, lineage and call approved together, one log entry from the status before, one event |
| ApprovalStore.Store.ReleaseOrEnqueue | app/services/agent_approval_service.py:1002-1025 | the newest queue item of the call is queued again if approval was what held it back; a call without any item gets one |
| ApprovalStore.Store.RejectCall | app/services/agent_approval_service.py:453-530 | the whole new state and the answer of a reject, with the same refusals as an approve |
| ApprovalStore.Store.LockContext | app/services/agent_approval_service.py:828-884 | a decision reaches an approval only if lineage, call and epoch agree; every other case is refused and recorded as the source does |
| ApprovalStore.Store.Validate | app/services/agent_approval_service.py:919-952 | the order of refusals: not pending, other input, other snapshot or scope, overdue (which expires it), call not approvable |
| ApprovalStore.Store.ExpireApproval | app/services/agent_approval_service.py:790-826 | exactly a pending approval past its expiry, whose lineage, call and run exist, is expired; any other is left alone |
| ApprovalStore.Store.MarkExpiredLocked | app/services/agent_approval_service.py:954-996 | expiring moves approval, lineage, call and queue together and logs it once |
| ApprovalStore.Store.SupersedeWithReplacement | app/services/agent_approval_service.py:532-680 | a supersede replaces the pending approval and its call, or refuses for the first of its reasons and changes nothing |
| ApprovalStore.Store.CreateReplacementToolCall | app/services/agent_approval_service.py:682-769 | the replacement gets the greatest of the requested attempt, the prior attempt plus one and the step's highest attempt plus one |
| ApprovalStore.Store.BlockQueue | app/services/agent_approval_service.py:1027-1037 | every queued, leased or blocked item of the call is blocked with the reason, and no other item changes |
| ApprovalStore.Store.EnsureApprovalAllowsExecution | app/services/agent_approval_service.py:115-132 | the gate's answer for a call in any state of the tables; which answer that is in reachable states says ApprovalSafety.GateAnswersExactly |
| ApprovalRuns.StepKeeps | app/services/agent_approval_service.py:184-1064 | create, approve, reject, supersede, expire, and everything tool ledger and executors do, keep the lineages, calls, statuses and log in agreement |
| ApprovalRuns.SupersedingKeysAreFree | app/models/agent.py:293-325 | the next epoch of a lineage is always free, and so is the attempt number a replacement gets, so neither unique constraint is hit |
| ApprovalSafety.LineagesAreChains | app/services/agent_approval_service.py:184-788 | in every reachable state a lineage's approvals are numbered 1 to its current epoch, exactly those below are superseded, and the newest has the lineage's status and call, which points back |
| ApprovalSafety.AtMostOneIsPending | app/services/agent_approval_service.py:586-630 | in every reachable state a lineage has at most one pending approval |
| ApprovalSafety.SupersedeSucceedsExactlyWhenFresh | app/services/agent_approval_service.py:532-680 | a supersede that is not refused goes through exactly when the call identifier and the idempotency key it brings are unused |
| ApprovalSafety.DecisionsAreFinal | app/services/agent_approval_service.py:919-930 | over any further steps an approval keeps its terms, and approved, rejected, expired and superseded are never left |
| ApprovalSafety.LogTellsTheStatuses | app/services/agent_approval_service.py:1039-1064 | reading the mutation log reproduces every status, and two entries about one approval are its creation and the single step that left pending |
| ApprovalSafety.GateOpensExactlyWhenApproved | app/services/agent_approval_service.py:115-132 | in every reachable state a call that needs approval passes the gate exactly when it has a scope and its own approval is approved |
| ApprovalSafety.GateAnswersExactly | app/services/agent_approval_service.py:115-132 | in every reachable state, for every call: it passes exactly when it needs no approval, or its own (lineage, epoch) approval is approved and it has a scope; it is called stale exactly when that approval is approved and the scope is missing; approval is asked for exactly when it needs one and that approval is not approved |
| ApprovalSafety.ApprovedWithoutScopeIsHeldBack | app/services/agent_approval_service.py:122-131 | a history of four steps after which a call without a scope is approved and its approval called stale |
| ApprovalSafety.OpenGateIsCurrent | app/services/agent_approval_service.py:115-132 | a call that passes is the one its lineage names, at the lineage's current epoch |
| ApprovalSafety.NothingRunsWithoutConsent | app/services/agent_approval_service.py:115-451 | in every history a call that passes the gate was approved by an earlier granted decision sent with its lineage, epoch, input, snapshot and scope |
| ApprovalSafety.DeniedForever | app/services/agent_approval_service.py:453-996 | once its approval was rejected, expired or superseded a call never passes the gate again, whatever follows |
| ApprovalSafety.TheCallIsTold | app/services/agent_approval_service.py:371-996 | in every reachable state a step that changes the status of an approval leaves its call with the status and error that tell so: rejected and expired hand it to a person, superseded makes it obsolete, approved clears the error |
| ApprovalSafety.QueueFollowsTheDecision | app/services/agent_approval_service.py:1002-1037 | a denied call's items are blocked with the reason at once, a granted one's newest item is queued unless it is held for another reason, and nothing else in the queue changes |
| ApprovalSafety.EveryMutationIsAnnounced | app/services/agent_approval_service.py:234-262 | over every history each entry of the mutation log was announced by one event, in the same order |
| ApprovalVerdicts.GrantedExactlyWhenItFits | app/services/agent_approval_service.py:828-1000 | in every reachable state a decision is granted exactly when it names the call's own open approval with exactly its terms, in time, and the call can be approved; it is too late exactly when only the time is over; nothing is found exactly when lineage or call is unknown |
| ApprovalVerdicts.RefusedForItsReason | app/services/agent_approval_service.py:828-1000 | in every reachable state the reason of a refusal: another epoch than that of the call its lineage is at, another input than that of the open approval, a call that can no longer be approved, and stale for everything else |
| ApprovalVerdicts.RefusalsOnlyLeaveATrace | app/services/agent_approval_service.py:828-952 | a refused decision changes nothing but the event log; a late one expires the approval first |
| ApprovalVerdicts.ReplacementIsAsAsked | app/services/agent_approval_service.py:600-769 | a supersede that goes through adds exactly one call, the one asked for, under the lineage's next epoch, and an open approval of exactly its terms without an expiry |
| ApprovalVerdicts.ReplacementIsTheNextAttempt | app/services/agent_approval_service.py:692-699 | its attempt number is the least that is above the prior attempt and all attempts at its step and not below the one asked for |
| ApprovalExpiry.ApprovalExpireScanner.Audit | app/services/agent_approval_service.py:1071-1116 | the report counts the overdue approvals and their lineages, names exactly the lineages with more than one, and gives the longest wait |
| ApprovalExpiry.ApprovalExpireScanner.ExpireDueSummary | app/services/agent_approval_service.py:1118-1187 | a batch takes the first overdue approvals by lineage and expiry, one per lineage, expires them in turn and counts what happened |
| ApprovalExpiry.ApprovalExpireScanner.ExpireEach | app/services/agent_approval_service.py:1145-1160 | the loop over the batch: first of each lineage attempted, the rest counted as duplicates |
| ApprovalExpiry.NoHotspots | app/services/agent_approval_service.py:1085-1103 | in every reachable state the audit finds no lineage with two overdue approvals |
| ApprovalExpiry.SummariesBalance | app/services/agent_approval_service.py:1161-1187 | in every reachable state a batch attempts and expires exactly the lesser of limit and backlog, skips nothing, and the backlog falls by what it expired |
| ApprovalExpiry.BatchesDrain | app/services/agent_approval_service.py:1118-1187 | after n batches at one time the backlog is what n times the limit leaves of it, and zero once that covers it |
| ApprovalExpiry.FallsDueFromItsExpiry | app/services/agent_approval_service.py:184-265 | over every history an approval asked for with an expiry is overdue exactly while it is pending and the expiry has come, and one asked for without never |
| ApprovalExpiry.ReplacementsNeverFallDue | app/services/agent_approval_service.py:611-628 | a replacement's approval is never found overdue, at any time and after any steps |
| RunLedger.ReconcileWorker.ReconcileToolCall | app/services/agent_reconcile_service.py:814-896 | the whole new ledger for every reply, effect state, capability and contract |
| RunLedger.ReconcileWorker.HandleNotFound | app/services/agent_reconcile_service.py:898-928 | what an unknown call becomes, by what was known of its sending, and when it may be asked about again |
| RunLedger.ReconcileWorker.RecordAttempt | app/services/agent_reconcile_service.py:960-981 | a new attempt gets the number after the highest so far |
| RunLedger.ReconcileWorker.LatestAttempt | app/services/agent_reconcile_service.py:983-990 | the attempt with the highest number, if there is one |
| RunLedger.ReconcileWorker.MarkNeedsMigration | app/services/agent_reconcile_service.py:930-958 | the call needs migration and has an open block, and the run counts it |
| RunLedger.ReconcileWorker.ReconcileRun | app/services/agent_reconcile_service.py:779-812 | a pass takes every eligible call in order, reports exactly those told to wait as skipped, and reconciles exactly the rest |
| RunLedger.MigrationCoordinator.CreateToolCallBlock | app/services/agent_reconcile_service.py:252-286 | a call has an open block afterwards and gets no second one; the run's count and list are brought up to date |
| RunLedger.MigrationCoordinator.RefreshRunBlockState | app/services/agent_reconcile_service.py:288-300 | count and blocking calls are those of the open blocks, and any open block blocks the run |
| RunLedger.MigrationCoordinator.ResolveBlock | app/services/agent_reconcile_service.py:315-398 | the whole new ledger of resolving a block, including one resolved before or unknown |
| Freshness.Evaluate | app/services/agent_reconcile_service.py:407-573 | the gate's reason is the first check that fails, in the source's order |
| Freshness.TheFirstFailureDecides | app/services/agent_reconcile_service.py:407-573 | the reason given fails while all checks before it pass, and the gate says continue exactly when all fifteen pass |
| Freshness.CountEvidence | app/services/agent_reconcile_service.py:605-650 | the loop's counts are zero exactly when no active reference is a latest sample, or needs revalidation |
| Freshness.StaleMemories | app/services/agent_reconcile_service.py:652-678 | no memory is reported exactly when no active reference rests on a stale one |
| Freshness.CountPending | app/services/agent_reconcile_service.py:694-737 | the counts are zero exactly when no pending approval is overdue, or has lost its call or disagrees with it on input, snapshot, scope, lineage or epoch |
| RunResume.AgentRunResumeService.ResumeRun | app/services/agent_resume_service.py:26-128 | the whole new ledger and the answer of a resume: refused, paused, or executed, queued again and settled |
| RunResume.AgentRunResumeService.ScheduleRetryableToolCalls | app/services/agent_resume_service.py:130-157 | the retryable calls without an active item are planned and queued, in order |
| RunResume.AgentRunResumeService.ExecuteApprovedBlockingToolCalls | app/services/agent_resume_service.py:159-219 | the blocking calls that are approved and planned go to the executor, in order, and those that succeeded are reported |
| RecoveryRuns.ReconciledInStages | app/services/agent_reconcile_service.py:814-981 | reconciling records at most one attempt with the next number; a call becomes retryable only if it was not sent and is not known; one left open is told to wait |
| RecoveryRuns.PassKeeps | app/services/agent_reconcile_service.py:779-812 | a pass over calls that are due keeps blocks, counts, attempts, retries and queue in agreement |
| RecoveryRuns.BlockAdded | app/services/agent_reconcile_service.py:252-286 | a call that comes to need migration had no open block, and having one stays the same as needing migration |
| RecoverySafety.StepKeeps | app/services/agent_reconcile_service.py:252-981 | reconcile, resolve, resume and any allowed environment keep the invariant |
| RecoverySafety.NothingIsSentTwice | app/services/agent_resume_service.py:130-157 | in every history every item a resume queues is for a retryable call in state send-intent-recorded that its backend did not know when last asked, without an active item, under its old key |
| RecoverySafety.KeysNeverChange | app/services/agent_reconcile_service.py:898-928 | over every history a call keeps its idempotency key |
| RecoverySafety.BlocksAreAccountedFor | app/services/agent_reconcile_service.py:288-300 | in every reachable state the run's count is the number of open blocks, its list their calls, a run with open blocks is blocked or ended, and a call needs migration exactly while it has its one open block |
| RecoverySafety.ResolvingTheLastBlock | app/services/agent_reconcile_service.py:345-372 | resolving returns the call to reconciling; the run stays blocked while blocks are open, then runs exactly if every check of the gate passes and pauses otherwise, even if it had ended |
| RecoverySafety.ResumedExactlyWhenNothingBlocks | app/services/agent_resume_service.py:89-93 | a resume that goes ahead leaves the run running exactly when every call it waited for has succeeded, and lists exactly the others |
| ResumeEffects.EveryRetryableCallIsQueued | app/services/agent_resume_service.py:130-157 | a resume that goes ahead leaves no retryable call without a queued or leased item; it reports exactly those that had none, by step and attempt, plans them again and adds one queued item for each in that order |
| ResumeEffects.EveryApprovedCallIsExecuted | app/services/agent_resume_service.py:159-219 | a resume that goes ahead gives every approved, planned blocking call its executor's outcome and leaves all others that are not retryable alone; it reports exactly the blocking calls that have succeeded by then, by step and attempt; each executed call's newest waiting item, and no other, is completed or failed |
| ResumeEffects.ExecutedCallsAreCounted | app/services/agent_resume_service.py:204-206 | it counts one iteration for each call it executed that succeeded, and moves just past their steps |
| ResumeEffects.ResumeGoesAheadExactlyWhen | app/services/agent_resume_service.py:31-73 | a resume goes ahead exactly when the run has not ended, no block is open and all fifteen checks pass |
| ResumeEffects.RefusedResumesOnlyPause | app/services/agent_resume_service.py:31-88 | a refused resume changes nothing, except that a run that rests on something stale is paused with its error |
| RecoverySafety.AttemptsAreNumbered | app/services/agent_reconcile_service.py:960-981 | over every history the attempts of a call only grow and are numbered 1 to n |
| RecoverySafety.AttemptsKeepTheirDistance | app/services/agent_reconcile_service.py:796-912 | over every history the attempt after one that left the call uncertain or reconciling is at least the backoff later |
| ReconcileAnswers.AttemptsRecordTheReplies | app/services/agent_reconcile_service.py:796-981 | over every history a pass records one attempt for exactly the open calls that are due, legacy ones aside, with the result the call's backend gave, or unsupported if contract or adapter is missing; all other calls stay |
| ReconcileAnswers.StatusTellsTheResult | app/services/agent_reconcile_service.py:814-958 | over every history the status a pass gives a call is equivalent to the result of the attempt on record: succeeded, failed, reconciling and in need of migration to their own, the rest to not found by what was known of the sending, and manual also to a conflict or to no attempt |
| ReconcileAnswers.EveryCauseLeavesItsTrace | app/services/agent_reconcile_service.py:821-958 | over every history each result, and each reason to hand a call to a person, leaves its own recovery decision and error |
| ReconcileAnswers.OnlySuccessBringsOutput | app/services/agent_reconcile_service.py:852-896 | over every history a success commits the effect and brings the backend's output, and nothing else touches either, or anything but status, decision and error |
| ReconcileAnswers.OutcomesAreAnnounced | app/services/agent_reconcile_service.py:814-958 | over every history the events of a pass about a call are those of what became of it, and there are none about calls it does not take up |
| RecoverySafety.SettledCallsStay | app/services/agent_reconcile_service.py:818-819 | over every history a settled call and its attempts stay as they are unless the environment changes the call |
| RecoverySafety.MigrationWaits | app/services/agent_resume_service.py:43-59 | over every history a call that needs migration stays as it is, attempts and all, until a block is resolved |
| RecoverySafety.ClaimingIsAllowedExactlyWhen | app/services/agent_runtime_service.py:2205-2252 | claiming a queued item is covered by what is assumed of the environment exactly when its call does not need migration |
| RecoverySafety.ClaimingForgetsTheBlock | app/services/agent_runtime_service.py:2205-2252 | claiming keeps blocks and calls in agreement exactly when the call does not need migration |
| RecoverySafety.CancelledRunRevived | app/services/agent_reconcile_service.py:345-372 | a history in which a cancelled run is running again after its block was resolved |
| JsonExtract.ExtractJsonCandidate | app/ai_skills/base.py:61-90 | the scanner finds the stretch that balances the first bracket, else the stretch to the last closing bracket of its kind |
| JsonExtract.ValueIsNeutral | app/ai_skills/base.py:68-88 | whichever bracket is counted, a whole JSON value leaves the count where it was |
| JsonExtract.ExtractionIsExact | app/ai_skills/base.py:61-90 | an object or array printed in any way RFC 8259 allows, after text without brackets and before any text, is extracted exactly |
| JsonExtract.ExtractionExists | app/ai_skills/base.py:61-90 | on every text something is extracted exactly when the first bracket has one of its closing kind after it |
| JsonExtract.ExtractionIsAStretch | app/ai_skills/base.py:61-90 | on every text the candidate is a stretch from the first bracket to one that closes its kind |
| JsonExtract.ExtractionIsIdempotent | app/ai_skills/base.py:61-90 | on every text extracting again changes nothing |
| ControlRepair.RepairControlCharactersInStrings | app/ai_skills/base.py:100-152 | the scanner with its look-ahead does what the rewriting function says |
| ControlRepair.ClassifyLineBreak | app/ai_skills/base.py:118-137 | a line break in a string closes it, is dropped or is meant, by what follows |
| ControlRepair.RepairCleans | app/ai_skills/base.py:100-152 | on every text a rescan of the output meets no raw control character in a string except after a backslash |
| ControlRepair.UnchangedExactlyWhenClean | app/ai_skills/base.py:100-152 | a text is left alone exactly when it has none |
| ControlRepair.RepairIsIdempotent | app/ai_skills/base.py:100-152 | on every text repairing again changes nothing |
| ControlRepair.RepairKeepsTheReading | app/ai_skills/base.py:138-150 | unless a line break is dropped or closes a string, the repaired text reads as the same characters |
| ControlRepair.JsonIsLeftAlone | app/ai_skills/base.py:100-152 | well-formed JSON is unchanged |
| LineBreaks.MissingQuoteIsPutBack | app/ai_skills/base.py:118-137 | in well-formed JSON with a line break in place of the closing quotation mark of any one string, the mark is put back before the line break exactly when a comma or a closing brace or bracket comes next; otherwise the line break is escaped and the string goes on |
| LineBreaks.LineBreakInAString | app/ai_skills/base.py:118-137 | in well-formed JSON with a raw line break anywhere inside any one string, it ends the string before a comma or a closing brace or bracket, is dropped at the end of the string unless the text ends there, giving the original text, and is escaped everywhere else, giving the string with a line break in it |
| LineBreaks.EveryStringIsMet | app/ai_skills/base.py:100-109 | every quotation mark a scan of well-formed JSON meets outside strings opens one of its strings, so the two statements above are about all of them |
| QuoteRepair.EscapeUnescapedInnerQuotes | app/ai_skills/base.py:155-183 | the scanner does what the rewriting function says |
| QuoteRepair.RepairSettles | app/ai_skills/base.py:155-195 | in the output every quotation mark that ends a string is followed by what may follow one |
| QuoteRepair.UnchangedExactlyWhenSettled | app/ai_skills/base.py:155-195 | a text is left alone exactly when that holds of it, and grows otherwise |
| QuoteRepair.RepairIsIdempotent | app/ai_skills/base.py:155-195 | on every text repairing again changes nothing |
| QuoteRepair.OnlyEscapesQuotes | app/ai_skills/base.py:155-183 | the output is the input with backslashes before some quotation marks |
| QuoteRepair.JsonIsLeftAlone | app/ai_skills/base.py:155-195 | well-formed JSON is unchanged |
| InnerQuotes.InnerQuoteIsEscaped | app/ai_skills/base.py:155-195 | in well-formed JSON with a quotation mark left unescaped anywhere inside any one string, it is escaped, giving the string with that mark in it, unless a colon, a comma or a closing brace or bracket comes next |
| JsonRepair.JsonIsLeftAlone | app/ai_skills/base.py:96-97 | well-formed JSON is unchanged by both scanners together |
| JsonRepair.RepairIsCleanExactlyWhen | app/ai_skills/base.py:96-97 | the output of both is free of raw control characters in strings exactly when none is left where the second scanner is inside a string |
| JsonRepair.RepairIsFinalExactlyWhenClean | app/ai_skills/base.py:96-97 | running both again changes nothing exactly when the output is clean |
| JsonRepair.LineBreakDrawnIn | app/ai_skills/base.py:96-97 | a text whose output is not |
| Text.NextNonSpaceIndex | app/ai_skills/base.py:191-195 | the first place from a start that is not space |
| CronExpression.ParseCron | app/core/cron.py:18-25 | five fields each parsed over its range, or the error of the first that does not parse |
| CronExpression.ParseField | app/core/cron.py:69-87 | a field is the union of its items' ranges, or the first item's error |
| CronExpression.ParseItem | app/core/cron.py:72-84 | an item's values or its error, for steps, ranges, stars and single numbers |
| CronExpression.FieldIsANonEmptySubset | app/core/cron.py:69-87 | a field that parses is a non-empty subset of its range |
| CronExpression.PrintedFieldMeans | app/core/cron.py:69-87 | a written field parses exactly when every item is in order and within range, and then holds exactly the values some item covers |
| CronExpression.PrintedExpressionParses | app/core/cron.py:18-25 | five written fields parse exactly when each does, with any spacing, to their values |
| CronSearch.NextCronTime | app/core/cron.py:28-39 | the result is the least matching minute after the reference, or the error when none lies within the bound; never the error for expressions that always find one |
| CronSearch.CronOccurrences | app/core/cron.py:42-59 | the result is exactly the first matches after start and not after end, up to the limit, in order with none skipped; the error only comes when fewer than the limit are listed and five years from the last of them, or from the start, bring none |
| CronMeaning.MatchesByItsParts | app/core/cron.py:62-66 | the minute of a date and a time of day matches exactly when minute, hour, day, month and weekday are in their fields, Monday being 1 and Sunday 0 or 7 |
| CronMeaning.WrittenExpressionMeans | app/core/cron.py:18-87 | a written expression parses exactly when all its items are in range, and then matches exactly the times whose five parts its items cover |
| CronMeaning.NextTimeIsCovered | app/core/cron.py:28-39 | for a written expression the search answers with a covered time, skips none, and fails only when five years bring none |
| CronMeaning.OccurrencesAreCovered | app/core/cron.py:42-59 | for a written expression the listing has only covered times of the interval, and leaves one out only beyond its limit |
| CronTimes.ExpressionWithAnyDayNeverRaises | app/core/cron.py:28-39 | for every parsed expression with any day of the month, any months and weekdays have a match within the bound of any reference |
| CronTimes.ExpressionNeverRaisesExactlyWhenAnnual | app/core/cron.py:34-39 | for every parsed expression with any weekday the search never raises exactly when some allowed day exists in every year |
| CronTimes.AlwaysFindsNeverRaises | app/core/cron.py:34-39 | with seven days on end of an allowed month, or a day that exists every year and three weekdays, the search never raises |
| CronTimes.ThreeWeekdaysAreEnough | app/core/cron.py:62-66 | a date falls on five weekdays in five years on end, so it falls on one of any three within the bound |
| CronTimes.NoAnnualDayRaises | app/core/cron.py:34-39 | around the end of a century that is not a leap year, a search for 29 February fails from 1 March of the last leap year to the end of 23 February three years on |
| CronTimes.LeapDayIsEnough | app/core/cron.py:34-39 | and from 25 February on it finds the next one |
| CronTimes.NewYear2018 | app/core/cron.py:34-39 | a search for New Year's Day on a Monday fails after 1 January 2018 |
| CronTimes.OneCycleDecides | app/core/cron.py:34-39 | whether the search ever raises is settled by the references of 400 years |
| SensitiveData.MaskIsIdempotent | app/core/sensitive_data.py:49-59 | masking twice is masking once |
| SensitiveData.MaskFixesExactlyMasked | app/core/sensitive_data.py:49-59 | a value is left alone exactly when nothing in it is left to mask |
| SensitiveData.MaskOfEncrypted | app/core/sensitive_data.py:28-59 | masking an encrypted value is masking the value |
| SensitiveData.MaskHidesSecrets | app/core/sensitive_data.py:49-59 | values that differ only under sensitive keys, or inside sealed values, mask to the same |
| SensitiveData.SensitiveExactlyWhenSpelled | app/core/sensitive_data.py:12-23 | a key is sensitive exactly when one of the ten names is spelled somewhere in it, in any case and with hyphens for underscores |
| SensitiveData.EncryptHidesSecrets | app/core/sensitive_data.py:28-36 | values that differ only under sensitive keys encrypt alike under a cipher whose tokens are alike, so secrets show in nothing but their tokens |
| SensitiveData.DecryptUndoesEncrypt | app/core/sensitive_data.py:28-46 | decrypting what was encrypted gives the value back exactly when no dictionary outside its secrets looks sealed |
| SensitiveData.RevealUndoesProtect | app/core/sensitive_data.py:67-77 | text comes back from protection exactly when it did not look protected |
| JsonPaths.ResolveTracePath | app/ai_skills/scenario_composer.py:573-584 | the walk along a dotted path, through keys and list indices |
| JsonPaths.KeyPathFinder.Walk | app/ai_skills/scenario_composer.py:589-616 | the recursive walk with its fallback finds what a scan of the keys in pre-order finds |
| JsonPaths.FindJsonKeyPath | app/ai_skills/scenario_composer.py:586-619 | the path found, or none |
| JsonPaths.ScanFindsFirst | app/ai_skills/scenario_composer.py:586-619 | the first exact match, else the first normalised one, and none exactly when there is neither |
| JsonPaths.AlikeUpToMarksAndCase | app/ai_skills/scenario_composer.py:620-622 | names are alike whatever stands between their letters and digits and whichever case the letters have |
| JsonPaths.PlainNamesStay | app/ai_skills/scenario_composer.py:620-622 | and only then: names of lower-case letters and digits stand for themselves |
| JsonPaths.FoundPathIsOfTheChosen | app/ai_skills/scenario_composer.py:586-619 | the path returned is that of one key, the first equal to the name unless that is the empty key at the top, else the first like it met before the search stopped; none is returned exactly when there is no such key |
| JsonPaths.MatchesButHasNoPath | app/ai_skills/scenario_composer.py:586-619 | no path is returned exactly when no key is like the name, or the first like it is the empty key at the top under its own name |
| JsonPaths.PathsLeadBackExactlyWhenPlain | app/ai_skills/scenario_composer.py:573-622 | for every key of a value with distinct keys its path splits back to the way to it and resolves to its value exactly when no part of the way has a dot and it is not the empty key at the top; otherwise the path is read as a longer way, or is the empty one |
| JsonPaths.FoundPathsResolve | app/ai_skills/scenario_composer.py:573-622 | the path found leads back to the key it was found for exactly under that condition |
| JsonPaths.DottedKeyAlone | app/ai_skills/scenario_composer.py:573-619 | any only key with a dot in it is found and its path leads nowhere |
| JsonPaths.DottedKeyBesideItsParts | app/ai_skills/scenario_composer.py:573-619 | beside the keys it seems to spell its path leads to what they hold |
| JsonPaths.EmptyKeyFirst | app/ai_skills/scenario_composer.py:586-619 | an empty key that comes first is not found under its own name, and under another it is like it is found at the empty path, which leads to the whole value |
| Decimal.SplitUndoesJoin | app/ai_skills/scenario_composer.py:577-593 | splitting undoes joining exactly when no part has the separator in it |
| RunEvents.AIRunEventStore.CompleteRun | app/services/ai_run_event_service.py:65-71 | completing masks and keeps the result and appends the event that carries it |
| RunEvents.AIRunEventStore.FailRun | app/services/ai_run_event_service.py:73-79 | failing keeps the message and appends the event that carries it |
| RunEvents.AIRunEventStore.WaitForEvents | app/services/ai_run_event_service.py:87-101 | a wait returns exactly the events after the cursor, and the status |
| RunEvents.StatusIsTheLastOne | app/services/ai_run_event_service.py:59-119 | in every interleaving a run has the status of its last start, completion or failure; logging and polling leave it |
| RunEvents.SequencesAreDense | app/services/ai_run_event_service.py:103-114 | in every interleaving sequences are 1 to n and every stored payload is masked |
| RunEvents.ClientsMissNothing | app/services/ai_run_event_service.py:87-114 | in every interleaving a polling client has each event up to its cursor once and in order |
| RunEvents.StoppedClientsKnowWhy | app/services/ai_run_event_service.py:65-101 | a client that stopped at a terminal status holds the event that says why, with a result or a message in it |
| RunEvents.TheLastPollBringsTheEnd | app/services/ai_run_event_service.py:65-101 | the poll at which a client stops brings the event with the very result, or message, that the run has then |
| RunEvents.CompletionEventCarriesTheResult | app/services/ai_run_event_service.py:65-71 | masking the result again for the event changes nothing, so the event carries the kept result |
| MemoryStore.ProjectMemoryStore.ValidateMemory | app/services/agent_memory_service.py:452-492 | a user's validation, and its refusal for inferred memories |
| MemoryStore.ProjectMemoryStore.Contradict | app/services/agent_memory_service.py:797-809 | counters, scores, severity and status after a contradiction |
| MemoryStore.ProjectMemoryStore.MarkMemoriesStaleForRef | app/services/agent_memory_service.py:818-864 | every link to the evidence stales its memory and is counted and recorded |
| MemoryStore.ProjectMemoryStore.ProcessExpiredTtl | app/services/agent_memory_service.py:871-916 | the first memories past their time, by expiry, are staled |
| MemoryStore.ProjectMemoryStore.ProcessUsageEvent | app/services/agent_memory_service.py:1104-1241 | the memory, the decision and the record that feedback on a use leads to |
| MemoryStore.ProjectMemoryStore.ProcessDue | app/services/agent_memory_service.py:1064-1102 | due uses are processed in order, and the report's counts are those of the decisions |
| MemoryStore.ProjectMemoryStore.ProcessExecutionRecordCreated | app/services/agent_memory_service.py:929-1019 | every memory that rests on the record is validated or contradicted through a use of its own |
| MemoryStore.TallyStep | app/services/agent_memory_service.py:1085-1102 | counting along the loop is counting the decisions at the end |
| MemoryRuns.StepKeeps | app/services/agent_memory_service.py:314-1241 | every step keeps counters, scores and the records of uses in agreement |
| MemoryTrust.CountersTellTheEvents | app/services/agent_memory_service.py:452-811 | over every history the counters equal the numbers of recorded events, recent ones included, and confidence and staleness stay in range |
| MemoryTrust.EachUseCountsOnce | app/services/agent_memory_service.py:1104-1241 | a use is behind exactly one validation or contradiction if that was the decision on it, else behind none |
| MemoryTrust.DecidedOnce | app/services/agent_memory_service.py:1040-1048 | over every history a decided use is never changed again |
| MemoryTrust.FeedbackActivatesExactlyWhen | app/services/agent_memory_service.py:1021-1131 | exactly when a user's feedback turns an inactive memory active |
| MemoryTrust.ExecutionActivatesExactlyWhen | app/services/agent_memory_service.py:929-1019 | exactly when an execution record does |
| MemoryTrust.InferredBecomesActiveExactlyWhen | app/services/agent_memory_service.py:452-1131 | over every history an inferred memory becomes active at a step exactly when it is such an execution or such feedback |
| MemoryTrust.NothingIsLeftDue | app/services/agent_memory_service.py:1049-1062 | over every history no use is left waiting to be processed between steps |
| MemoryTrust.InferredMemoryActivatedUnvalidated | app/services/agent_memory_service.py:1127-1131 | a history in which positive feedback after a change of evidence activates an inferred memory without any validation |
| MemoryTrust.InferredMemoryActivatedOnItsUsersWord | app/services/agent_memory_service.py:1127-1131 | a history in which feedback that says `validated` activates one without any execution |
| MemoryTrust.TrustIsEarned | app/services/agent_memory_service.py:452-1131 | over every history an active memory that nobody vouched for was validated or had a use that turned out well; an inferred one had such a use |
| MemoryScores.ScoresMoveSteadily | app/services/agent_memory_service.py:452-1241 | after n validations, contradictions, changes of evidence, expiries or uses of one strength the scores have moved n times as far, by the amounts of that kind, as long as there was room |
| MemoryScores.ScoresStayInRange | app/services/agent_memory_service.py:452-1241 | whatever happens in whatever order, the scores stay in range |
| MemoryScores.ChangesReachExactlyTheLinked | app/services/agent_memory_service.py:818-864 | a change of evidence makes each memory staler once for each of its links to it, rejected memories excepted, and no other |
| MemoryScores.TheLastDemotionDecides | app/services/agent_memory_service.py:797-809 | the last contradiction that is critical, decisive, high or a repetition decides the status, even against an earlier stricter one |

## Left out

- Transactions, sessions, locks, lock waits and the order of locks: a guarded operation is one atomic step, and a violated unique key is a step without effect.  `app/db/session.py:7` turns autoflush off; a transaction's own writes are taken to be visible to its later queries.
- Permissions, HTTP responses, routes, schemas, identifiers, clocks and lock metrics: users are not modelled where they only gate access, and times and fresh identifiers are arguments.
- The tool executor, the worker queue and the conversation runner (`app/services/agent_runtime_service.py`): they are environment steps; what is assumed of them is `RecoveryRuns.IsEnvironment` and `ApprovalRuns.Step`.
- RecoverySafety.MigrationWaits: assumes that nobody takes up a call that needs migration, which `claim_next` does not enforce; with such claims it fails, as `RecoverySafety.ClaimingForgetsTheBlock` says.
- RunResume.AgentRunResumeService.ResumeRun: does not model the conversation runner that completes a run after executed calls; what it does to the run later is an environment step.
- An approval's own identifier: approvals are named by lineage and epoch, which the table keeps unique.
- The history of approvals ordered by creation time: a call has one approval in every reachable state, so its newest is its only one.
- High-risk evidence checks before execution (`ensure_context_allows_execution`) and evidence watches: independent of the approval protocol.
- One ledger holds one run: every query of the reconcile and resume services is by run.
- Replies of reconcile adapters are inputs, and an adapter that is missing is a reply that is missing; a contract counts as incomplete only when a part of it is absent, not when it is the empty string.
- External resource identifiers, output hashes and error messages that are only copied.
- Freshness facts (watches, policy references, pending approvals, permissions) are read from tables that are inputs to the gate; the counts and details it reports besides its verdict are left out.
- Batches of the expiry scanner are taken without other steps in between; the invariants themselves hold for single expiries in any interleaving.
- The lists of lineages and calls that reports sort by name are sets or follow the query order.
- The trailing-comma expression, fence stripping and candidate order around `json.loads` in `load_model_json`: regular expressions and the JSON parser are not part of this model.
- Daylight-saving zones, zone lookup and the end of the calendar in the year 9999: zones are fixed offsets, and dates run on.
- Digits and letters beyond ASCII in `isdigit`, `lower` and `strip`.
- For expressions that restrict both the day of the month and the weekday, a condition on the fields alone that is necessary as well as sufficient.
- Cryptography: sealing and opening are an abstract pair, and a fresh seal of equal values may be taken as equal; hashes are opaque.
- Numbers inside JSON values are opaque, and dictionaries have distinct keys in a fixed order.
- Retrieval of memories, its scores and its penalties (`log1p`, semantic scores): floating point; only the use that a retrieval records is modelled.
- Memory scores are exact hundredths rather than binary floating point, and titles, contents and references of memories are left out.
- Template replacement, normalisation of extractors and the rest of scenario composition.
- Dashboards, release gates, runbooks, fault injection, metrics, prompts, repositories, notification and mock servers.
