# Sentinel core: a verified model

Sentinel is a local assistant that plans actions, asks for confirmation, runs tools under
durable grants and talks to several model providers. This project models its stateful core in
Dafny and proves what that core promises. Code that updates objects or loops is modelled by
classes and loops, each proved against a specification function; the theorems are about those
functions and about every run built from them. `dafny verify dfyconfig.toml` checks everything.
Where Dafny would try induction on records or lists of records by itself, it is switched off
(`{:induction false}`): every induction over them is written out.

| files | part of the system |
|---|---|
| `Grants`, `GrantBroker`, `GrantRuns`, `GrantTheorems`, `GrantAnswers`, `GrantExamples` | durable plan and step grants: the table operations, the broker, all interleavings of its calls, what each call answers |
| `Confirmations` | single-use confirmations of pending actions |
| `TaskGraph`, `MultiAgent`, `ModelCoordinator`, `Schedulers` | the two dependency schedulers and their common meaning |
| `Boundary`, `ReportSources` | the fence around untrusted text and the collector that budgets with it |
| `Environment`, `EnvironmentHistory` | the change detector and the histories it produces |
| `Goals`, `GoalRegistries` | the goal registry, its intent index and the candidate search |
| `ContextTrim`, `ContextManage`, `Chunking` | fitting conversations into budgets, splitting documents |
| `GroundingCaches`, `GroundingCacheRuns`, `CircuitBreakers`, `Streaming` | cache, breaker, streaming fallback |
| `RunningMean` | the registry's rounded running success rate |
| `ReleaseNames`, `Release`, `ReleaseTheorems`, `ReleaseAnswers`, `ReleaseExample` | release manifests |
| `RoleMatrix` | role and tool permissions |
| `Wrappers`, `Text`, `Ordering` | option type, whitespace and words, string order and sorting |

## How runs are modelled

A grant operation is a sequence of statements, each one atomic (one SQL statement or one
transaction), with a program counter between them (`Grants.Advance`). A run is any sequence of
events that starts calls, advances any open call by one statement, inserts plans, decides
about them, consumes steps or rewrites a stored payload behind the broker's back, so all
interleavings of any number of calls are covered.
`GrantBroker` holds the methods as they are written, each proved equal to its statements run
without interruption (`Grants.RunAlone`), and `GrantTheorems.AloneIsARun` shows that this is
one of the runs. Confirmations split `consume` at the point between its read and its atomic
removal. Cache, breaker, registry and environment runs are sequences of whole calls, which
their locks make atomic. Clock readings, digests, tokenizers, model and tool outcomes are
inputs.

## What the proofs found

- Nothing bounds the index of `issue_next_step_grant` from above. From time t on, a closed plan
  of n steps can come to have index n consumed exactly when a grant at n was used or is
  unexpired at t, and is exact for ever exactly when not (`ClosedPlanOverrunsIff`,
  `ClosedPlanStaysExactIff`). This happens after a close (`OverrunHappens`) and, in a race, to
  a close that answers True afterwards (`RacedCloseOverruns`). When every requested index lies
  inside the plan, a closed plan is exact (`BoundedRunsCloseExactly`).
- Recovering a plan compares its digest, closing it does not. However payloads are rewritten,
  resumes return one payload per plan (`OnePayloadPerPlan`); the answer of a close can change,
  and exactly when is stated (`RewrittenPayloadKeepsAnswerIff`). A payload that is no JSON
  object makes it raise (`CloseAnswer`).
- A confirmation request hashes the session of the identity but stores a fallback from the
  context. A request whose identity holds a null session can never be confirmed; one without a
  session, or with an empty one, and with a context session cannot be confirmed by default
  (`SessionAgrees`, `ConsumableIff`).
- A repeated sub-task id is always reported as stuck by the orchestrator (`StuckIff`). The
  coordinator drops waiting tasks silently, so a plan counts as all successful with no
  result exactly when everything in it waits (`CountsAddUpIff`, `WaitingPlanPassesIff`).
- Summarising in `manage` assumes that the system messages come first: otherwise messages at
  the head are lost and system messages are repeated (`SummaryCoversIff`). With the system
  messages not kept first, `truncate` lets them use up the budget and then drops them, so it
  keeps all the other messages that fit exactly when everything from the first of them on fits
  (`DroppedSystemsCostNothingIff`, with an input in `DroppedSystemCosts`).
- `_split_long` ends exactly when there are no words or chunk_size // 5 exceeds overlap // 5
  (`SplitEndsIff`), so `chunk_text` ends exactly when no paragraph is longer than chunk_size or
  that holds (`ChunkingEndsIff`); nothing in the source demands it.
- Cleaning the cache up changes no later `get`, but it changes what a later `invalidate`,
  `cleanup_expired` or `invalidate_all` answers, exactly for entries still lingering
  (`CleanupShowsIff`).
- A stored environment change is keyed by a digest of its content, so a change that comes back
  is not stored again (`StoredAreReturned`). The returned lists replay; the stored ones do exactly
  when, for every application, the last stored and the last returned change leave the same
  (`StoredReplayIff`, with a run in which they do not in `StoredChangesFallShort`). The last of
  several entries with one app_id wins, so reports agree exactly when they agree on the entries
  of each id in order (`ReportsAgreeIff`).
- The breaker is inconsistent before any event when its threshold is below one
  (`SoundnessNeedsThreshold`).
- The success rate is rounded to three decimals at each result, so it stops moving:
  after two thousand flawless results no number of failures changes it (`MovesIff`,
  `PerfectRateIsFrozen`).
- `find_candidates` lists a goal twice exactly when the goal repeats the target intent
  (`OncePerGoalIff`).
- `verify` compares listed names as strings. No file is listed twice when all names are
  canonical, as all generated names are (`CanonicalNamesAreFiles`, `GeneratedIsCanonical`);
  otherwise a file can be listed twice under two spellings (`GeneratedCanBeRespelled`,
  `FileListedTwice`). It also accepts releases whose flattened download is rejected because
  two files share a name (`FlattenedPassesIff`).

## Model

| member | source | states |
|---|---|---|
| `GrantBroker.ExecutionGrantRepository.AddPlan` | sidecar/repositories/execution_grant_repository.py:16-28 | A plan row is inserted as pending; a taken grant id is refused and changes nothing. |
| `GrantBroker.ExecutionGrantRepository.TransitionPlan` | sidecar/repositories/execution_grant_repository.py:30-55 | Compare-and-swap of the status along the legal edges only; an overdue live plan expires instead; approval records its time. |
| `GrantBroker.ExecutionGrantRepository.InsertStep` | sidecar/repositories/execution_grant_repository.py:60-74 | A step row enters only under an approved or running plan with the same plan, hash, identity and session, and never twice per plan and index or per id. |
| `GrantBroker.ExecutionGrantRepository.UseStep` | sidecar/repositories/execution_grant_repository.py:76-91 | Compare-and-swap approved to consumed under the full binding and before expiry. |
| `GrantBroker.ConfirmationBroker.RecoverApprovedPlan` | sentinel/core/confirmation.py:89-101 | Any stored payload that is JSON comes back, for an approved or running plan whose recorded hash it has; otherwise the call raises. |
| `GrantBroker.ConfirmationBroker.ApprovePlanGrant` | sentinel/core/confirmation.py:103-104 | Approval is the transition pending to approved. |
| `GrantBroker.ConfirmationBroker.ResumeApprovedPlan` | sentinel/core/confirmation.py:140-156 | The call equals its statements run without interruption: check the owner, claim, read again, recover. |
| `GrantBroker.ConfirmationBroker.IssueNextStepGrant` | sentinel/core/confirmation.py:158-192 | The loop over earlier indices, the reuse of an open row and the derivation equal the call's statements in order. |
| `GrantBroker.ConfirmationBroker.IssueStepGrant` | sentinel/core/confirmation.py:120-135 | Insert, read back, and hand out the context of the inserted row, or raise. |
| `GrantBroker.ConfirmationBroker.ReadBack` | sentinel/core/confirmation.py:124-135 | The two reads behind the insert and the context built from them equal the call's last statements. |
| `GrantBroker.ConfirmationBroker.ConsumeStepGrant` | sentinel/core/confirmation.py:137-138 | Consumption is the repository's compare-and-swap. |
| `GrantBroker.ConfirmationBroker.CompletePlan` | sentinel/core/confirmation.py:194-207 | The owner check, the step count (raising for a payload that is no object), the count of consumed rows and the final transition equal the call's statements. |
| `GrantBroker.ConfirmationBroker.FailPlan` | sentinel/core/confirmation.py:209-226 | The owner moves a running plan to failed. |
| `Grants.AdvanceStaysHome` | sentinel/core/confirmation.py:140-226 | Every statement of a call leads to a later statement of the same call, so each call ends. |
| `GrantRuns.CountIsPrefix` | sentinel/core/confirmation.py:202-206 | Under the invariant the number of consumed steps determines which indices they are: 0 up to that number. |
| `GrantRuns.TransitionKeepsInv` | sidecar/repositories/execution_grant_repository.py:30-55 | A transition keeps the database invariant and only moves plans forward. |
| `GrantRuns.CreateStepKeepsInv` | sidecar/repositories/execution_grant_repository.py:60-74 | Inserting a step behind a consumed prefix keeps the invariant. |
| `GrantRuns.ConsumeKeepsInv` | sidecar/repositories/execution_grant_repository.py:76-91 | Consuming a step keeps the invariant. |
| `GrantRuns.CallInvStable` | sentinel/core/confirmation.py:158-207 | What a call has read stays true while other calls move the database forward. |
| `GrantRuns.RunKeepsInv` | sentinel/core/confirmation.py:140-226 | Every run of interleaved statements and payload rewrites keeps the invariant of the rows and of every open call. |
| `GrantRuns.RunGrows` | sentinel/core/confirmation.py:140-226 | Along a run no row disappears and nothing but statuses, the approval time and rewritten payloads changes; consumed steps stay consumed. |
| `GrantTheorems.StepsFormAPrefix` | sentinel/core/confirmation.py:158-192 | In every run the consumed indices are 0 to k-1 and every open grant is at k. |
| `GrantTheorems.ClosedPlanIsCovered` | sentinel/core/confirmation.py:194-207 | A close that answered True leaves the plan consumed, and all the n > 0 steps consumed that the payload listed at the event at which this close read it, whatever ran in between. |
| `GrantTheorems.ReadsOnce` | sentinel/core/confirmation.py:195-199 | A close reads the payload at one event only, so the count it read is one number. |
| `GrantTheorems.RunHistory` | sentinel/core/confirmation.py:194-207 | In every run a plan is consumed only by a close that answered True, and every close has counted what it read. |
| `GrantTheorems.UntouchedPlanIsCovered` | sentinel/core/confirmation.py:194-207 | While nobody rewrites its payload, a consumed plan has all its listed steps consumed. |
| `GrantTheorems.CloseAloneAnswers` | sentinel/core/confirmation.py:194-207 | The answer of an uninterrupted close, read off the rows: an error, True or False. |
| `GrantTheorems.RewrittenPayloadKeepsAnswerIff` | sentinel/core/confirmation.py:198-206 | A close answers the same on a rewritten payload if and only if it never counts, or both payloads pass or fail the count. |
| `GrantTheorems.LateRewriteIsUnseen` | sentinel/core/confirmation.py:202-207 | Once a close has read the plan, rewriting a payload changes neither its answer nor anything else that it does. |
| `GrantTheorems.CloseAloneIsExact` | sentinel/core/confirmation.py:194-207 | An uninterrupted close succeeds if and only if the owner closes a running, unexpired plan whose consumed indices are exactly 0 to n-1, n > 0. |
| `GrantTheorems.AloneIsARun` | sentinel/core/confirmation.py:140-226 | An uninterrupted call is one of the interleaved runs. |
| `GrantTheorems.ClosedPlanOverrunsIff` | sentinel/core/confirmation.py:158-207 | From t on a terminal plan can come to have index n consumed if and only if a grant at n was used or is unexpired at t. |
| `GrantTheorems.ClosedPlanStaysExactIff` | sentinel/core/confirmation.py:158-207 | A terminal plan with its n steps consumed stays exact in every continuation from t on if and only if no grant at n was used or is unexpired at t. |
| `GrantExamples.OverrunHappens` | sentinel/core/confirmation.py:158-207 | The exhibited run closes a plan whose payload lists one step and consumes its index 1 afterwards. |
| `GrantExamples.RacedCloseOverruns` | sentinel/core/confirmation.py:202-207 | A run in which index 1 of such a plan is consumed between the count and the transition of a close that then answers True. |
| `GrantTheorems.BoundedRunsCloseExactly` | sentinel/core/confirmation.py:158-207 | When all requested indices lie inside the plan and nobody rewrites its payload, a consumed plan has exactly 0 to n-1 consumed. |
| `GrantTheorems.StatusFollowsEdges` | sidecar/repositories/execution_grant_repository.py:30-55 | One event moves a plan along at most one legal edge, or expires it. |
| `GrantTheorems.TerminalPlansAreFrozen` | sidecar/repositories/execution_grant_repository.py:30-55 | A terminal plan never gains a step and never changes again, except for a rewritten payload. |
| `GrantTheorems.OnePayloadPerPlan` | sentinel/core/confirmation.py:89-101 | However payloads are rewritten, all successful resumes of a plan return one payload, whose digest is the recorded hash; a recovery returns it exactly while the plan is live and holds it, and raises otherwise. |
| `GrantTheorems.GrantedContextIsUsable` | sentinel/core/confirmation.py:128-138 | A granted context is consumable if and only if its row is still open and unexpired. |
| `GrantTheorems.InsertedStepIsGranted` | sentinel/core/confirmation.py:122-127 | After a successful insert the incomplete-context error cannot occur, at either of the two reads. |
| `GrantTheorems.StepsAreSingleUse` | sidecar/repositories/execution_grant_repository.py:76-91 | No step grant is consumed twice in any run. |
| `GrantAnswers.PlanEntersIff` | sidecar/repositories/execution_grant_repository.py:16-28 | A plan enters as pending if and only if its id is new and its mandatory fields are filled; nothing else changes. |
| `GrantAnswers.MovesIff` | sidecar/repositories/execution_grant_repository.py:30-55 | A transition answers True if and only if the plan is there, the step is a legal edge from its status, and it is unexpired; the status left in every case is spelled out. |
| `GrantAnswers.StepEntersIff` | sidecar/repositories/execution_grant_repository.py:60-74 | A step row enters, as given, if and only if its plan runs with the same five columns and neither its slot nor its id is taken. |
| `GrantAnswers.ConsumesIff` | sidecar/repositories/execution_grant_repository.py:76-91 | A step is consumed if and only if the open, unexpired row of that id carries every column of the binding. |
| `GrantAnswers.IssueAloneAnswers` | sentinel/core/confirmation.py:158-192 | After any run an uninterrupted issue hands out the open row at the index, field by field, or a new row with exactly the asked id, step, tool, parameters, identity, session and expiry, and raises otherwise; the rows left are spelled out. |
| `GrantAnswers.CallsAreStarted` | sentinel/core/confirmation.py:158-192 | In every run a call works for the operation it was started with. |
| `GrantAnswers.RowsAreRequested` | sentinel/core/confirmation.py:158-192 | In every run each step row was asked for by a started call with that plan, index, id, step, tool, digest of the asked parameters, identity, session and expiry. |
| `GrantAnswers.RecoversIff` | sentinel/core/confirmation.py:89-101 | A recovery returns the stored payload if and only if the plan is approved or running, the payload has the recorded digest and is JSON; otherwise it raises. |
| `GrantAnswers.ResumeAloneAnswers` | sentinel/core/confirmation.py:140-156 | An uninterrupted resume returns the stored payload if and only if the owner with three non-empty identity fields resumes a running, or approved and unexpired, plan whose payload has the recorded digest and is JSON; the status left is spelled out. |
| `GrantAnswers.FailAloneAnswers` | sentinel/core/confirmation.py:209-226 | An uninterrupted failure answers True and leaves the plan failed if and only if the owner fails a running, unexpired plan. |
| `GrantAnswers.CloseAloneEffect` | sentinel/core/confirmation.py:194-207 | An uninterrupted close leaves the plan consumed exactly when it answers True, expired when only that stood in the way, and as it was otherwise. |
| `Confirmations.PendingActions.Store` | sentinel/core/operational_memory.py:541-545 | A record is stored unless the limit is reached. |
| `Confirmations.PendingActions.ConsumePending` | sentinel/core/operational_memory.py:555-565 | Atomic removal guarded by the owner: the record goes to one caller only, another user's attempt raises and leaves it. |
| `Confirmations.ConfirmationDesk.Request` | sentinel/core/confirmation.py:253-306 | A confirmation record is stored with the digests, the session and the rest of the context as the code takes them; a missing user and a reached limit raise their two errors and store nothing. |
| `Confirmations.ConfirmationDesk.Consume` | sentinel/core/confirmation.py:308-359 | A grant, a permission error, nothing, and the removal, each exactly under its written-out condition. |
| `Confirmations.ConsumptionAnswers` | sentinel/core/confirmation.py:308-359 | An attempt is granted if and only if it approves a stored confirmation of its user (or names none), with agreeing digests and session, in time; it raises if and only if the user differs or an approval disagrees; the record goes exactly when the user fits. The grant is given field by field. |
| `Confirmations.RequestedRecord` | sentinel/core/confirmation.py:270-306 | Every field of the record that a request stores. |
| `Confirmations.ConsumableIff` | sentinel/core/confirmation.py:270-359 | An approval of a fresh request is granted if and only if it comes from the requesting user, in time, under an agreeing session. |
| `Confirmations.OwnSessionConsumes` | sentinel/core/confirmation.py:284-359 | An identity that carries its session id can confirm its own request, naming the session or not, and receives the stored parameters. |
| `Confirmations.RunKeepsInv` | sentinel/core/confirmation.py:308-359 | All runs of requests, reads, removals and outside changes of stored records keep the log honest. |
| `Confirmations.GrantsAreSingleUse` | sentinel/core/confirmation.py:308-359 | At most one grant per action id over any interleaving; every grant goes to the requester, in time, with the parameters as requested. |
| `Confirmations.WaitsUntilTaken` | sentinel/core/confirmation.py:316-320 | Between its read and its removal an attempt waits unchanged, whatever else runs. |
| `Confirmations.AgreeingAttemptIsGranted` | sentinel/core/confirmation.py:308-359 | In every run an attempt that read a confirmation, and whose removal finds it stored, owned, agreeing and in time, is logged with its grant. |
| `TaskGraph.LayersReachLeastFixedPoint` | sentinel/core/multi_agent.py:244-256 | Peeling layers finishes exactly the least set closed under "all dependencies finished"; a task is left over exactly when a dependency lies outside it. |
| `TaskGraph.PeelingIsLeast` | sentinel/core/multi_agent.py:247-249 | From any forced start, the finished set is closed and forced, and the leftovers are the unsatisfied tasks. |
| `TaskGraph.CompletesIffRanked` | sentinel/core/multi_agent.py:247-256 | On distinct ids nothing is left over if and only if the list has a rank: acyclic, no missing dependency. |
| `TaskGraph.ForwardListsComplete` | sentinel/core/multi_agent.py:131-177 | A list in which every dependency stands earlier always completes. |
| `TaskGraph.LayersPartition` | sentinel/core/model_coordinator.py:361-395 | Layers and leftovers together are a rearrangement of the list. |
| `MultiAgent.ExecuteMulti` | sentinel/core/multi_agent.py:237-275 | The loop computes the layers of the normalised list, the results in order, and reports stuck with the leftover ids exactly when fewer results than tasks exist. |
| `MultiAgent.NormalisedDeps` | sentinel/core/multi_agent.py:245-245 | Every sub-task is scheduled with the dependencies of the last one that has its id. |
| `MultiAgent.FirstSeenInOrder` | sentinel/core/multi_agent.py:264-275 | The results come once per id, in the order in which the ids first came up. |
| `MultiAgent.CompletedIsCompletable` | sentinel/core/multi_agent.py:244-275 | The completed ids are exactly the least fixed point of "every dependency finished". |
| `MultiAgent.StuckIff` | sentinel/core/multi_agent.py:247-256 | Stuck is reported if and only if ids repeat or some task lies outside the least fixed point. |
| `MultiAgent.EveryResultSawItsDependencies` | sentinel/core/multi_agent.py:258-275 | Every result was computed from a snapshot that held the final results of all its dependencies. |
| `MultiAgent.DefaultDecompose` | sentinel/core/multi_agent.py:121-177 | A complex task is cut into exactly the steps it mentions, in order, each depending on all before it, or into the main step; ids are distinct and it completes. |
| `MultiAgent.DistinctIsNormal` | sentinel/core/multi_agent.py:245-249 | With distinct ids the dependency table is the list itself; with repeated ids the last entry wins. |
| `ModelCoordinator.SetAside` | sentinel/core/model_coordinator.py:366-380 | Tasks without a model fail and complete at once; the others are kept for execution in order. |
| `ModelCoordinator.RunTasks` | sentinel/core/model_coordinator.py:366-393 | One batch yields its results in the code's order and completes all its ids. |
| `ModelCoordinator.RemovingReady` | sentinel/core/model_coordinator.py:394-395 | Removing the batch element by element leaves exactly the blocked tasks. |
| `ModelCoordinator.ExecutePlan` | sentinel/core/model_coordinator.py:322-406 | Both branches return the results of the layers, batch after batch, for exactly the ids in the least fixed point; as many succeed as there are tasks that run, have a model and whose execution succeeds. |
| `ModelCoordinator.ResultsTellOutcomes` | sentinel/core/model_coordinator.py:334-393 | Whatever is asked of a result, as many results have it as tasks that run and whose own outcome, or failure for want of a model, has it; ids may repeat. |
| `ModelCoordinator.ResultsTell` | sentinel/core/model_coordinator.py:334-393 | On distinct ids every result carries success and error of its task's execution, or a failure without a model; every task that runs has exactly one result, no other has one. |
| `ModelCoordinator.SuccessesAreWinners` | sentinel/core/model_coordinator.py:397-399 | The successes counted are the tasks that run, have a model and whose execution succeeds. |
| `ModelCoordinator.ResultsAreCompletable` | sentinel/core/model_coordinator.py:359-395 | The ids with a result are exactly the least fixed point of "every dependency finished". |
| `ModelCoordinator.ResultsFollowLayers` | sentinel/core/model_coordinator.py:359-395 | The results are those of the layers of the task list, in order. |
| `ModelCoordinator.CountsAddUpIff` | sentinel/core/model_coordinator.py:397-405 | Results are as many as tasks if and only if every dependency lies in the least fixed point. |
| `ModelCoordinator.WaitingPlanPassesIff` | sentinel/core/model_coordinator.py:361-405 | A plan yields no result, and so no failure, if and only if every task of it has a dependency. |
| `Schedulers.SchedulersAgree` | sentinel/core/multi_agent.py:244-275 | On distinct ids the orchestrator completes exactly the ids the coordinator returns results for, which are the least fixed point; the coordinator's results are those of the orchestrator's layers; and one reports stuck exactly when the other's results fall short. |
| `Boundary.ReplaceRemoves` | sentinel/core/content_security.py:41-45 | A replacement leaves no occurrence of its own pattern, not even across a seam. |
| `Boundary.ReplaceStaysFree` | sentinel/core/content_security.py:41-45 | A replacement creates no occurrence of a tag that its mark cannot overlap. |
| `Boundary.ReplaceJoinsPieces` | sentinel/core/content_security.py:41-45 | A replacement cuts the text at the occurrences, leftmost first, and joins the pieces by the mark: nothing else of the text changes. |
| `Boundary.NeutraliseIsFree` | sentinel/core/content_security.py:41-45 | After both replacements neither tag occurs. |
| `Boundary.PassesUnchangedIff` | sentinel/core/content_security.py:41-45 | Text passes unchanged if and only if it holds neither tag. |
| `Boundary.NeutraliseTwice` | sentinel/core/content_security.py:41-45 | Neutralising twice equals neutralising once. |
| `Boundary.WrapLength` | sentinel/core/content_security.py:41-45 | Wrapping adds at most 59 characters. |
| `Boundary.WrapHasOneOfEach` | sentinel/core/content_security.py:41-45 | The wrapped text holds the begin tag exactly once, at the start, and the end tag exactly once, at the end. |
| `Boundary.RegionReadsBack` | sentinel/core/content_security.py:41-45 | A reader of the fenced region gets the whole neutral text back. |
| `ReportSources.TakeCandidate` | sentinel/core/file_pipeline.py:599-625 | One candidate is skipped, noted as sensitive, or cut to the room left, wrapped and added. |
| `ReportSources.CandidateIsTakenIff` | sentinel/core/file_pipeline.py:600-625 | A candidate becomes a source exactly under the probes spelled out, with its own path and the text the budget still allows, wrapped; it is noted exactly if it is a sensitive file. |
| `ReportSources.FullIff` | sentinel/core/file_pipeline.py:598-599 | The cap is max_files kept within 1 and 100, and the report is full at the cap or the budget. |
| `ReportSources.LookInOrder` | sentinel/core/file_pipeline.py:596-625 | The loop looks at the candidates in order and stops at the first point where the cap or the budget is reached. |
| `ReportSources.CollectReportSources` | sentinel/core/file_pipeline.py:594-629 | The report holds the sources of the candidates looked at, their exact total, at most max(1, min(max_files, 100)) sources and at most max_chars + 59 characters; none found is an error. |
| `ReportSources.BudgetBoundIsTight` | sentinel/core/file_pipeline.py:614-616 | The bound max_chars + 59 is reached. |
| `ReportSources.SourcesAreFenced` | sentinel/core/file_pipeline.py:614-624 | Every collected source is fenced. |
| `Environment.DetectAppChanges` | sentinel/core/environment_learning.py:61-98 | The loops over sorted ids compute the specified application changes. |
| `Environment.DetectAdded` | sentinel/core/environment_learning.py:70-72 | One change per added id, in order. |
| `Environment.DetectRemoved` | sentinel/core/environment_learning.py:73-75 | One change per removed id, in order. |
| `Environment.DetectShifts` | sentinel/core/environment_learning.py:61-98 | Kept applications are reported when category or capabilities, compared field by field, differ. |
| `Environment.DetectChanges` | sentinel/core/environment_learning.py:61-98 | Snapshots of different owners are refused; equal data gives no change; otherwise application changes, then hardware. |
| `Environment.DiffTells` | sentinel/core/environment_learning.py:61-98 | A diff holds an addition, a removal, a capability change or a capacity change with its payload if and only if the two snapshots differ in exactly that, compared by the fields; nothing else is in it. |
| `Environment.DiffIsOrdered` | sentinel/core/environment_learning.py:70-98 | Additions, removals, capability changes and hardware follow one another, each kind by ascending id. |
| `Environment.LatestEntryWins` | sentinel/core/environment_learning.py:68-69 | Of several entries with one id the last one counts. |
| `Environment.DiffReplaysFacts` | sentinel/core/environment_learning.py:61-98 | Replaying a diff on the category and capabilities of every previous application gives those of the current ones. |
| `Environment.CleanEntryIs` | sentinel/core/environment_learning.py:101-117 | Every field of a cleaned entry: defaults, cuts to 160 and 80 characters, the non-empty capabilities cut and sorted, the confidence kept within [0, 1]. |
| `Environment.DiffReplays` | sentinel/core/environment_learning.py:61-98 | Replaying a diff on the previous view gives the current view. |
| `Environment.DiffMentionsAppsOnce` | sentinel/core/environment_learning.py:61-98 | No application is the subject of two changes of a diff. |
| `Environment.NoAppChangeIff` | sentinel/core/environment_learning.py:61-98 | No application change is emitted if and only if the two views agree. |
| `EnvironmentHistory.EnvironmentLearningService.Observe` | sentinel/core/environment_learning.py:185-200 | An observation stores the snapshot, returns its diff and keeps each change of it once; an unusable one changes nothing. |
| `EnvironmentHistory.SnapshotKeeps` | sentinel/core/environment_learning.py:33-59 | A snapshot exists if and only if there is an owner and some fact, and holds the cleaned entries with an id, sorted by id, and the hardware facts. |
| `EnvironmentHistory.ObservationAnswers` | sentinel/core/environment_learning.py:185-200 | What an observation stores and answers: nothing at first, later exactly the changes spelled out by the fields; nobody else is affected. |
| `EnvironmentHistory.EnvironmentLearningService.KeepChanges` | sentinel/core/operational_memory.py:484-492 | A change whose content is already stored is not stored again. |
| `EnvironmentHistory.EnvironmentLearningService.DeleteEnvironmentData` | sentinel/core/operational_memory.py:508-514 | Erasing removes one user's snapshot and stored changes and counts them; other users keep theirs. |
| `EnvironmentHistory.ObservationReplays` | sentinel/core/environment_learning.py:185-200 | One observation's answer takes the stored view to the next. |
| `EnvironmentHistory.HistoriesReplay` | sentinel/core/environment_learning.py:185-200 | After any observations and erasures of any users, all returned changes replayed on the first view give the latest view. |
| `EnvironmentHistory.HistoriesReplayFacts` | sentinel/core/environment_learning.py:185-200 | The same over categories and capabilities alone. |
| `EnvironmentHistory.StoredAreReturned` | sentinel/core/operational_memory.py:484-514 | In every run the store holds the changes returned since the last erasure, in order, each where it first came. |
| `EnvironmentHistory.StoredInOrder` | sentinel/core/operational_memory.py:484-492 | The store keeps the changes in the order of their first appearances. |
| `EnvironmentHistory.StoredReplayIff` | sentinel/core/operational_memory.py:484-492 | In every run the stored changes replay to the latest view if and only if, for every application, the last stored and the last returned change about it leave the same. |
| `EnvironmentHistory.FreshChangesReplay` | sentinel/core/operational_memory.py:484-492 | While no change comes back, the stored changes replay. |
| `EnvironmentHistory.StoredChangesFallShort` | sentinel/core/operational_memory.py:484-492 | The stored changes of an application that goes, comes back and goes again replay to a view that still holds it. |
| `EnvironmentHistory.CapabilityOrderIsIrrelevant` | sentinel/core/environment_learning.py:101-119 | The order in which capabilities are reported does not matter. |
| `EnvironmentHistory.ReportsAgreeIff` | sentinel/core/environment_learning.py:101-119 | Two reports in a row are no change if and only if they agree, id by id, on the cleaned entries in order. |
| `Ordering.SortsAgreeIff` | sentinel/core/environment_learning.py:118-118 | Two lists sort by id to the same list if and only if they hold the same entries of every id in the same order. |
| `Ordering.LeqIff` | sentinel/core/environment_learning.py:70-77 | The order of ids is lexicographic: a prefix is below, else the first difference decides. |
| `GoalRegistries.GoalRegistry.AddGoal` | sentinel/core/goals.py:133-149 | Registering links every listed intent, or raises on a taken id and changes nothing. |
| `GoalRegistries.GoalRegistry.DropGoal` | sentinel/core/goals.py:151-162 | Unregistering unlinks every listed intent. |
| `GoalRegistries.GoalRegistry.ChangeGoal` | sentinel/core/goals.py:164-185 | Fields are applied in order until a forbidden one raises; what was applied before stays. An unknown id raises KeyError, a forbidden field ValueError. |
| `GoalRegistries.GoalRegistry.Clear` | sentinel/core/goals.py:227-230 | Definitions and index become empty. |
| `GoalRegistries.GoalRegistry.FindByIntent` | sentinel/core/goals.py:191-195 | The goals in the index order, which are those a scan finds. |
| `GoalRegistries.GoalRegistry.SearchStage` | sentinel/core/goals.py:258-318 | One later stage finds exactly the goals whose first way of matching it is. |
| `GoalRegistries.GoalRegistry.FindCandidates` | sentinel/core/goals.py:240-318 | The four stages in order. |
| `GoalRegistries.CandidatesAre` | sentinel/core/goals.py:240-318 | A goal is found as exact, fuzzy_intent, capability or keyword if and only if it matches in that way, spelled out by its fields, and in no earlier one. |
| `GoalRegistries.CandidatesInOrder` | sentinel/core/goals.py:240-318 | The stages follow one another, the later three in order of registration. |
| `Goals.UpdateKeepsInv` | sentinel/core/goals.py:164-185 | An update, refused part-way or not, keeps index and definitions in step. |
| `Goals.UpdateSets` | sentinel/core/goals.py:164-185 | Each field is left as the last entry before a refused one sets it, or as it was; no other goal changes and none moves. |
| `Goals.UnregisterUndoesRegister` | sentinel/core/goals.py:133-162 | Unregistering a goal just registered restores the registry, the order within the index entries included. |
| `Goals.RegisterKeepsInv` | sentinel/core/goals.py:133-149 | Registering keeps index and definitions in step. |
| `Goals.UnregisterKeepsInv` | sentinel/core/goals.py:151-162 | Unregistering keeps them in step and leaves no empty entry. |
| `Goals.IndexAlwaysMirrors` | sentinel/core/goals.py:133-185 | After any operations every intent maps to exactly the multiset of goals listing it, and no entry is empty. |
| `Goals.FindAgreesWithScan` | sentinel/core/goals.py:191-195 | `find_by_intent` returns what a scan of the definitions finds, each goal as often as it lists the intent. |
| `Goals.FoundAsOftenAsListed` | sentinel/core/goals.py:191-195 | Every registered goal is returned exactly as often as it lists the intent. |
| `GoalRegistries.ExactIff` | sentinel/core/goals.py:240-257 | "exact" labels exactly the goals listing the target. |
| `GoalRegistries.OncePerGoalIff` | sentinel/core/goals.py:240-318 | Each goal is returned at most once if and only if no goal lists the target twice. |
| `ContextTrim.TrimMessages` | sentinel/core/context_window.py:114-146 | All system messages in order, then the longest suffix of the others that fits beside them. |
| `ContextTrim.SuffixIsLongest` | sentinel/core/context_window.py:114-146 | The suffix that the loops keep is the one longest suffix within the budget. |
| `ContextTrim.TrimFits` | sentinel/core/context_window.py:114-146 | The trimmed conversation fits the window unless only system messages remain. |
| `ContextTrim.TrimIsTight` | sentinel/core/context_window.py:114-146 | A conversation over the window keeps all system messages and the others from some point on; these fit the larger of max_tokens - reserve and half the window (the whole window if neither is positive), and one more would not. |
| `ContextTrim.OneMoreMessage` | sentinel/core/context_window.py:131-132 | The messages with role "system", and the others, each in order. |
| `ContextTrim.PricesAre` | sentinel/core/context_window.py:94-110 | What one message adds to the count: the tokens of role and content and four; or a quarter of its length, at least one, in the truncation. |
| `ContextTrim.Truncate` | sentinel/core/context_budget.py:123-153 | The kept messages are the longest suffix that fits beside the system messages, in the original order. |
| `ContextTrim.TruncateFits` | sentinel/core/context_budget.py:123-153 | With the system messages kept, the result fits the budget unless only they remain. |
| `ContextTrim.DroppedSystemsCostNothingIff` | sentinel/core/context_budget.py:123-153 | With the system messages not kept first, all other messages that fit are kept if and only if everything from the first of them on fits. |
| `ContextTrim.DroppedSystemCosts` | sentinel/core/context_budget.py:123-153 | A user message that fits is lost to a system message behind it. |
| `ContextManage.Summarize` | sentinel/core/context_window.py:235-248 | The summarising phase replaces all but the last four later messages by one, and counts what it took. |
| `ContextManage.SummarizingIs` | sentinel/core/context_window.py:149-248 | Exactly when summarising happens, and what the conversation then consists of, position by position. |
| `ContextManage.Manage` | sentinel/core/context_window.py:210-258 | original_count + (1 if summarized) = final_count + trimmed; the result is the trimmed conversation, or the last message when nothing fits. |
| `ContextManage.SummaryCoversIff` | sentinel/core/context_window.py:236-243 | Summarising covers every message once if and only if the system messages come first. |
| `Chunking.DocumentChunker.SplitLong` | sentinel/core/knowledge_base.py:243-255 | The loop produces the overlapping segments, whose words are those of the chunks. |
| `Chunking.SegmentsReassemble` | sentinel/core/knowledge_base.py:243-255 | Dropping the repeated words of every later segment gives back the word list. |
| `Chunking.SplitEndsIff` | sentinel/core/knowledge_base.py:243-255 | The loop ends if and only if there are no words or the index advances. |
| `Chunking.DocumentChunker.ChunkingEndsIff` | sentinel/core/knowledge_base.py:218-229 | Chunking gets past every paragraph if and only if none is longer than chunk_size or the index advances. |
| `Chunking.DocumentChunker.TakeParagraph` | sentinel/core/knowledge_base.py:219-229 | A paragraph is merged into the buffer, or the buffer is flushed first; no word is lost. |
| `Chunking.DocumentChunker.ChunkText` | sentinel/core/knowledge_base.py:214-232 | The chunks are those of the greedy grouping of the paragraphs; overlaps dropped, they hold exactly the words of the text; without long paragraphs they join to the paragraphs and none exceeds chunk_size. |
| `Chunking.DocumentChunker.GroupsSoFar` | sentinel/core/knowledge_base.py:218-229 | The loop's chunks and buffer are those of a grouping in which every short group fits a chunk and cannot take the next paragraph, and every long paragraph stands alone. |
| `Chunking.GroupingIsUnique` | sentinel/core/knowledge_base.py:218-229 | There is at most one such grouping, so the chunks are determined. |
| `Chunking.ParagraphsAre` | sentinel/core/knowledge_base.py:216-217 | The pieces joined by blank lines are the text, each ends at the first blank line, and the paragraphs are those not blank, stripped. |
| `Chunking.ParagraphsKeepWords` | sentinel/core/knowledge_base.py:216-217 | Splitting at blank lines and stripping keeps the words. |
| `Text.StripCutsOut` | sentinel/core/knowledge_base.py:216-217 | Stripping takes whitespace off both ends and nothing else. |
| `GroundingCaches.GroundingCache.Lookup` | sentinel/core/grounding_cache.py:36-60 | A hit returns the data and moves the key to the end; an expired entry is removed. |
| `GroundingCaches.GroundingCache.Store` | sentinel/core/grounding_cache.py:62-78 | A full cache evicts first; an existing key keeps its place. |
| `GroundingCaches.GroundingCache.InvalidateKey` | sentinel/core/grounding_cache.py:80-93 | The key is removed, and its presence reported. |
| `GroundingCaches.GroundingCache.CleanupExpired` | sentinel/core/grounding_cache.py:122-135 | Exactly the expired entries are removed and counted. |
| `GroundingCacheRuns.PastKeepsInv` | sentinel/core/grounding_cache.py:36-135 | Every run keeps bound, order and contents consistent with what happened. |
| `GroundingCacheRuns.BoundedAndOrdered` | sentinel/core/grounding_cache.py:62-78 | In every run at most max_size entries, in order of last touch. |
| `GroundingCacheRuns.HitsReturnLastSet` | sentinel/core/grounding_cache.py:36-60 | A hit returns the last value set for the key, not older than its time to live. |
| `GroundingCacheRuns.HitIff` | sentinel/core/grounding_cache.py:36-135 | In every run a get hits with a value if and only if an earlier event set it within its time to live and none since has set the key anew, invalidated, evicted or cleared it, or come upon it too late. |
| `GroundingCacheRuns.EvictsLeastRecentlyTouched` | sentinel/core/grounding_cache.py:159-167 | The evicted key is the one whose last touch is oldest. |
| `GroundingCacheRuns.CleanupShowsIff` | sentinel/core/grounding_cache.py:122-135 | On a nondecreasing clock and evictions aside, cleaning up changes no later get; a later invalidation answers differently exactly for a lingering key, a later cleanup or clear exactly when there is one. |
| `CircuitBreakers.CircuitBreaker.RecordSuccess` | sentinel/core/circuit_breaker.py:24-29 | The provider closes and its failures are forgotten; others are untouched. |
| `CircuitBreakers.CircuitBreaker.RecordFailure` | sentinel/core/circuit_breaker.py:31-38 | A failure is counted and opens the provider at the threshold. |
| `CircuitBreakers.CircuitBreaker.AllowRequest` | sentinel/core/circuit_breaker.py:40-57 | Closed admits; open admits one probe after the cooldown; half-open admits none while a probe is in flight. |
| `CircuitBreakers.CircuitBreaker.Reset` | sentinel/core/circuit_breaker.py:108-123 | One provider, or all of them, return to the unknown state; the number reset is returned. |
| `CircuitBreakers.ReachableIsSound` | sentinel/core/circuit_breaker.py:24-57 | Closed: failures below the threshold; open or half-open: at least the threshold and a recorded failure; half-open if and only if a probe is in flight. |
| `CircuitBreakers.CountsTheStreak` | sentinel/core/circuit_breaker.py:24-38 | In every run the failure count is the number of failures after the last success or reset. |
| `CircuitBreakers.RemembersLastFailure` | sentinel/core/circuit_breaker.py:31-57 | In every run the recorded time is that of the last failure since the last reset. |
| `CircuitBreakers.ThresholdDecides` | sentinel/core/circuit_breaker.py:24-38 | A provider is closed if and only if that number is below the threshold, and the failure that reaches it, like every later one, opens it. |
| `CircuitBreakers.SoundnessNeedsThreshold` | sentinel/core/circuit_breaker.py:14-22 | This holds in all runs if and only if the threshold is at least one. |
| `CircuitBreakers.AsksWhileOpen` | sentinel/core/circuit_breaker.py:40-57 | Between outcomes an open provider stays open until the first request after the cooldown. |
| `CircuitBreakers.AdmitsOneProbe` | sentinel/core/circuit_breaker.py:40-57 | In every run, of the requests between two outcomes a provider that is not closed admits exactly the first one after the cooldown. |
| `Streaming.PassChunks` | sentinel/core/model_router.py:599-603 | Chunks are passed on in order; text was emitted exactly when a non-empty delta was among them. |
| `Streaming.RunChatStream` | sentinel/core/model_router.py:565-615 | The candidate loop equals the specified reply: events, breaker outcomes, fallbacks and end. |
| `Streaming.PlayShape` | sentinel/core/model_router.py:565-615 | From any candidate on, the first decisive one ends the call. |
| `Streaming.OneCandidateSpeaks` | sentinel/core/model_router.py:565-615 | All text comes from one candidate, in full; each tried candidate records one outcome, and only the last can be a success. |
| `Streaming.StreamFollowsScript` | sentinel/core/model_router.py:565-615 | The loop with its two variables shows what a script without any shows: each known candidate up to the first decisive one announces itself with the nearest earlier error as reason, passes its chunks on, and only the first local one away from the first provider announces the offline fallback. |
| `Streaming.AllFailedIff` | sentinel/core/model_router.py:604-615 | The final error is raised if and only if every known candidate failed without text, each recorded as one failure. |
| `RunningMean.ModelRegistry.Upsert` | sentinel/core/model_registry.py:43-50 | The entry is replaced, and whether it was new is reported. |
| `RunningMean.ModelRegistry.UpdateMetrics` | sentinel/core/model_registry.py:56-85 | Given metrics replace the old ones, absent ones stay; an unknown model changes nothing. |
| `RunningMean.ModelRegistry.UpdateRegistryMetrics` | sentinel/core/intelligence_coordinator.py:545-561 | One result updates latency, rate and count of its model and nothing else. |
| `RunningMean.ResultRecords` | sentinel/core/intelligence_coordinator.py:545-561 | What one result does to every field: the latency is its own, the costs stay, the use is counted, the rate is a number of thousandths within 1/2000 of the mean. |
| `RunningMean.MetricsMerge` | sentinel/core/model_registry.py:56-85 | Field by field, a given metric replaces the stored one and an absent one leaves it. |
| `RunningMean.RunTracks` | sentinel/core/intelligence_coordinator.py:545-561 | Through any run the rate stays in [0, 1] and its scaled error within n(n+1)/4000. |
| `RunningMean.RateIsNearTheMean` | sentinel/core/intelligence_coordinator.py:545-561 | After n >= 1 results with s successes the count is n and the rate is within (n+1)/4000 of s/n. |
| `RunningMean.MovesIff` | sentinel/core/intelligence_coordinator.py:551-558 | A stored rate changes if and only if the result differs from it by more than usage/2000, or by exactly that and the rate is odd in thousandths. |
| `RunningMean.PerfectRateIsFrozen` | sentinel/core/intelligence_coordinator.py:551-558 | A rate of 1.0 after two thousand results stays 1.0 in every run. |
| `ReleaseNames.PartsOfPosix` | scripts/release_metadata.py:32-36 | Writing a path as a name and reading its parts gives the path back. |
| `ReleaseNames.OwnFilesAreNotListed` | scripts/release_metadata.py:68-86 | The manifest and SHA256SUMS are never among the files a release lists. |
| `ReleaseAnswers.ArtifactIff` | scripts/release_metadata.py:68-86 | Which names are release artifacts: a stem with .exe, .msi or .sig in any case, update.json, and names ending in .zip or .tar.gz. |
| `Release.ReleaseTree.ValidateSboms` | scripts/release_metadata.py:39-50 | All three SBOMs must be present and valid. |
| `Release.ChosenAre` | scripts/release_metadata.py:68-86 | The chosen files are each SBOM and artifact once, in the order of their names. |
| `Release.ReleaseTree.RecordAll` | scripts/release_metadata.py:96-104 | One record per file with name, digest and size; a file outside the root or with a line break in its name raises. |
| `Release.ReleaseTree.Generate` | scripts/release_metadata.py:89-117 | Either both files are written from the recorded state, or an error is raised and no file changes; exactly when is stated. |
| `ReleaseAnswers.GeneratesExactly` | scripts/release_metadata.py:89-117 | A release is generated if and only if the three SBOMs are there and valid, an installer and a signature are built, the package states a version and every file can be named; it lists exactly the SBOMs and the build products. |
| `Release.ReleaseTree.CheckRecords` | scripts/release_metadata.py:130-140 | All records pass, or the error of the first failing record is raised. |
| `Release.ReleaseTree.Verify` | scripts/release_metadata.py:120-150 | Success if and only if the manifest is acceptable; otherwise the first failing record decides the error. |
| `Release.ReleaseTree.VerifyDownloaded` | scripts/release_metadata.py:153-182 | Success if and only if the flattened assets are acceptable. |
| `ReleaseTheorems.AcceptsIff` | scripts/release_metadata.py:120-150 | Accepted means: names distinct and relative, every listed file present with size and digest, SBOMs, installer and signature listed, SHA256SUMS the rendering of the records; and conversely. |
| `ReleaseAnswers.AcceptsExactly` | scripts/release_metadata.py:120-150 | Acceptance in terms of literal names, fields, bytes and lines alone. |
| `ReleaseAnswers.AcceptsDownloadExactly` | scripts/release_metadata.py:153-182 | The same for a flattened download. |
| `ReleaseAnswers.ListsLinesIff` | scripts/release_metadata.py:115-116 | SHA256SUMS holds one line per record: digest, two blanks, name, newline. |
| `ReleaseTheorems.GeneratedVerifies` | scripts/release_metadata.py:89-150 | What a generation has just written reads back and is accepted. |
| `ReleaseTheorems.TamperingIsCaught` | scripts/release_metadata.py:130-150 | An accepted manifest is accepted again if and only if every listed file keeps size and digest, SHA256SUMS its text and package.json its version. |
| `ReleaseTheorems.ChecksumsAreInjective` | scripts/release_metadata.py:115-116 | SHA256SUMS determines every digest and name it was written from. |
| `ReleaseTheorems.SecondSpellingPasses` | scripts/release_metadata.py:130-134 | With a second spelling of a listed name, the manifest and SHA256SUMS written anew are accepted. |
| `ReleaseTheorems.CanonicalNamesAreFiles` | scripts/release_metadata.py:130-140 | When all its names are canonical, an accepted manifest lists no file twice. |
| `ReleaseTheorems.GeneratedIsCanonical` | scripts/release_metadata.py:32-36 | Every generated name is canonical. |
| `ReleaseTheorems.GeneratedCanBeRespelled` | scripts/release_metadata.py:130-140 | Every generated manifest lists each file once; written over it, the manifest with one name respelled reads back, is accepted and lists a file twice. |
| `ReleaseExample.FileListedTwice` | scripts/release_metadata.py:130-140 | Two trees whose manifests read back and are accepted; the second manifest lists a file twice. |
| `ReleaseTheorems.FlattenedPassesIff` | scripts/release_metadata.py:171-182 | A flattened copy of an accepted release passes if and only if no two listed files share a file name. |
| `RoleMatrix.StarTakesAnyPart` | sentinel/core/capability_matrix.py:172-187 | A star matches any part of a tool id. |
| `RoleMatrix.PrefixThenStar` | sentinel/core/capability_matrix.py:14-126 | A literal followed by a star matches exactly the ids that begin with the literal. |
| `RoleMatrix.LiteralMatchesItself` | sentinel/core/capability_matrix.py:14-126 | A pattern without a star matches only itself. |
| `RoleMatrix.MatchTransitive` | sentinel/core/capability_matrix.py:14-126 | A pattern matched by another pattern, read as a text, matches nothing more than it. |
| `RoleMatrix.InclusionIff` | sentinel/core/capability_matrix.py:172-183 | One table allows every id of another if and only if it matches the other's patterns read as texts. |
| `RoleMatrix.RolesAreMonotone` | sentinel/core/capability_matrix.py:172-234 | For every id: allowed to viewers implies allowed to users implies allowed to admins, in the matrix and in the policy. |
| `RoleMatrix.PermitsIff` | sentinel/core/capability_matrix.py:204-234 | Admins may use everything, users and viewers the uncritical tools of their tables, other roles nothing. |
| `RoleMatrix.CriticalListMatters` | sentinel/core/capability_matrix.py:63-126 | The critical list takes away a tool that the user's table grants. |

## Left out

- SQLite, files, processes, HTTP, asyncio and threads: maps and atomic statements stand for them; a lost connection or a crash between statements is a call that never advances again.
- `issue_step_grant` called directly, around `issue_next_step_grant`: the runs derive steps only through the latter, so the prefix theorem is about those; a direct call could skip the order.
- `invalidate_by_plan_id`: it writes a status that the table's own constraint (`sidecar/repositories/database.py:677`) rejects, so it rolls back and is no event; the `actor` argument, which `transition_plan` ignores, and the columns for the times of consumption and rejection are not modelled.
- GrantBroker.ExecutionGrantRepository.AddPlan: the audit row written with every statement and the simulation evidence of a plan are not modelled, as no modelled operation reads them.
- `request_plan_grant`, `canonical_plan` and `canonical_params_hash`: digests are uninterpreted injective constructors, and the truncation of `_hash` to 16 digits is therefore not modelled.
- The SQLite backend of pending actions, its expiry sweep, `peek`, redaction and its secret lists: the redacted parameters are an input; negative indices of a step request are excluded, as its callers never send them.
- `execute_task` and `_run_sub_task`: total outcomes, so the branches for exceptions returned by `gather` are not modelled; `select_specialist`, prompts, agents, merging and the coordinator's rule-based `decompose` are left out; the error of a task without a model is its fixed part, without the list of capabilities.
- File probing in the report collector: a candidate is the list of answers the probes give; the order of candidates, which the file system and sorting decide, is an input; security indicators are left out.
- Change ids, summaries, timestamps, retention and non-string fields of snapshots; the fingerprint and the ids of changes are taken as injective digests.
- Token similarity and keyword overlap of goals are parameters; the audit log, aliasing of lists shared by a caller and the registry, and `search_by_intent` are left out.
- ContextManage.Manage: `reserve` is taken as a natural number, and the dictionary of the result as a record; when nothing fits, the reported final count stays 0 although the last message is returned, as in the code.
- Chunking.DocumentChunker.ChunkText: on a long paragraph chunk_size // 5 > overlap // 5 is required, because the loop does not end otherwise; chunk ids, metadata and hashes are left out.
- `VectorStore`, embeddings, cosine similarity, token-counting libraries, `budget_for`, model windows: tables and floating point.
- `invalidate_pattern`, `invalidate_all` beyond clearing, and the statistics of the cache; a maximum size of zero; the effect of a cleanup on later evictions.
- Provider selection, time budgets and the recorded fallback texts of the router; the consumer always reads the stream to its end.
- RunningMean.RateIsNearTheMean: the rate is a real number rounded half to even at three decimals; binary floating point and the concurrent updates of one entry are not modelled.
- Release.ReleaseTree.Generate: the JSON layer is a pair of functions that read back what they write; manifests with missing or ill-typed fields, symbolic links, Windows path syntax and the failure of git or of the clock are left out.
- Release.ReleaseTree.VerifyDownloaded: error messages are not modelled beyond the kind of error.
- Non-ASCII case folding of file suffixes: no other character folds to a letter of the listed suffixes.
- `fnmatch` question marks, character sets and the case folding on Windows: no pattern uses the first two; `classify_tool` only labels.
- RoleMatrix.PermitsIff: a role that is not a string counts as an unknown role.
