# A model of Skail's control plane

A Dafny model of the deterministic control plane of Skail: the code that decides who may spend, who
may run and what gets written. Provider adapters, prompts and storage are outside; the decisions,
tables and files they act on are inside.

- **Money** (`Journal`, `Ledger`, `Assignment`, `Chains`, `Batches`, `AssignmentService`, `Calls`,
  `CallProtocol`, `Reconciliations`, `UsageSettler`, `Recovery`, `History`, `Overspend`, `TaskSpending`,
  `Warnings`, `FailedSettlements`, with two small databases in `BatchExamples`). The database
  is one value of maps, a transaction a function from one value to the next, and an error leaves the
  value as it was. The service classes run the same transactions step by step over a journal and are
  proved to refine those functions. `History` lets any sequence of transactions happen and proves what
  all of them keep, `Overspend` bounds what a run can commit, and `Warnings` follows its warning.
- **Running** (`Scheduler`, `Graphs`, `TaskRegistry`, `Plans`, `Tasks`, `TaskGraph`, `Floors`).
  Completion of running work is nondeterministic: what a run does is a schedule of starts and waits.
  Callbacks are arbitrary functions.
- **Files** (`Paths`, `ChangeSets`, `Capture`, `Integration`, `Delivery`). The file system is a map from path to
  bytes, a digest is an injective constructor, and integration can stop before any effect.
- **Decisions** (`Selector`, `Decisions`, `Packing`).
- **What the transactions mean** (`LedgerAnswers`, `AssignmentOutcomes`, `BatchOutcomes`, `AttemptCosts`,
  `ObservedCosts`, `CallOutcomes`, `RecoveryEffects`, `Qualification`, `DecisionRules`, `PathRules`,
  `TaskSuccession`). Each of these modules says what a decision or a transaction does in the fields of what
  goes in and of the rows that come out, without the functions that compute it, and proves that they agree.

Ids are numbers that are only compared. Money is a real number, so decimal rounding is not an issue;
where a record demands a non-negative amount its type says so. Identifiers that the program draws at
random are parameters, and where freshness matters a lemma asks for it.

Proofs come in two kinds: an *anatomy* lemma unfolds one transaction into the facts that matter, and
the lemmas that combine such facts hide all definitions. Automatic induction is switched off on every
lemma, so that each proof stands on what it says. `dafny verify dfyconfig.toml` checks the project.

## Findings

Where the program does something that its users may not expect, a lemma says exactly when, and another
gives an input.

- More budget can turn a selection into a failed assertion: without a capability floor an unrated model
  qualifies as soon as it is affordable (`Selector.LargerBudgetKeepsChoice`, `Selector.MoreBudgetFails`).
  `select_model` accepts such a request, but the program sends none: its builder sets a floor in every mode
  but manual (`Floors.BuiltRequestsAreRanked`), and the catalogue offers only rated models automatically.
- A batch measures each request against what its task had committed before the batch. Two requests for
  one task can pass one by one and fail together, and then nothing of the batch is assigned
  (`Batches.BatchNeverTripsTheRun`, `BatchExamples.TogetherTheyFail`). The callers in
  `runtime/run_controller.py` pass one first-attempt request for each task, and such batches always fit
  (`Batches.DistinctTasksFit`).
- A batch does not look at the source of a fallback request, unlike a single assignment, so a fallback in
  a batch can leave two open assignments of one attempt (`Batches.FallbackNeedsItsSource`,
  `BatchExamples.BatchBreaksTheChain`). The callers in `runtime/run_controller.py` pass none.
- A settlement that fails bars its run: nothing closes the failure, and no call of the run begins again
  (`Histories.FailedSettlementBars`, `FailedSettlements.RefusedExactly`). It goes through
  exactly when the reservation is open and the ids of the record are unused, or when it repeats or may
  correct the record that this attempt left (`FailedSettlements.FailsExactly`). A recovery that releases the money of a live attempt
  leads there (`FailedSettlements.RecoveredThenSettled`).
- Recording the usage of a call under an assignment that is not its own makes the guard of the run's budget
  forget what the call has cost; it changes nothing else of what the guard observes
  (`ObservedCosts.StepKeepsAmounts`, `ObservedCosts.RecordedElsewhere`,
  `ObservedCosts.RecordedElsewhereIsForgotten`). The callers in
  `runtime/model_middleware.py` record a call under the assignment that began it, and then no call begins once
  the known costs have reached the limit (`ObservedCosts.NoneBeginsAtTheLimit`).
- The refusal `price_unavailable_for_reservation` is never given for a single assignment: where nothing limits
  a request its model needs no price, and where something does the selection has asked for one already
  (`AssignmentOutcomes.NeverUnpriced`).
- `sessions/recovery.py` releases reservations without refreshing the warning state, so a warning can
  stay up (`Recoveries.WarningsAfterRecovery`, `Recoveries.WarningCanStayUp`).
- A running task with one live and one dead attempt is returned to the lead, and its reservations are
  released although an attempt of it is live (`Recoveries.StaysRunning`,
  `Recoveries.LiveAttemptIsNotEnough`).
- The escalation floor can fall short of the graph's own check in economy mode
  (`Floors.EscalatedFloorPasses`, `Floors.EconomyFloorFails`).
- When routing finds no affordable model, the result says budget blocked while the registry holds
  blocked, since a queued task cannot become budget blocked (`TaskGraphs.TaskGraph.Run`,
  `TaskGraphs.RunWithoutMoney`).
- A retry clears a task's own failure but not the blocks it caused: only a dependent that is submitted
  after the failure can still run (`Scheduler.BlockedExactly`, `Scheduler.RetriedTooLate`).
- Using up the repairs does not lock the decision gate; it only changes the answer
  (`Decisions.ExhaustionDoesNotLock`, `Decisions.RepairsOnlyName`, `Decisions.DirectAfterExhaustion`).

## Model

| member | source | states |
|---|---|---|
| Ledgers.CountedOnce | src/skail/routing/budget.py:65-95 | in every state whose books match, the usage and the open reservations of a run add up to the charges of its reservations: each one counted as held while open, as its usage record once settled, and not at all once released |
| Ledgers.ReserveFits | src/skail/routing/budget.py:163-167 | an accepted new reservation commits exactly its amount, and with the lead allowance it fits the limit |
| Ledgers.SettleCommits | src/skail/routing/budget.py:220-316 | a settlement, correction or replay changes what a run has committed by exactly the cost minus what was held or recorded before; other runs are untouched |
| Ledgers.ReserveKeeps | src/skail/routing/budget.py:131-199 | reserving keeps the tables linked, one usage record for each settled reservation, and every earlier row |
| Ledgers.ReleaseKeeps | src/skail/routing/budget.py:201-218 | releasing keeps the same; a reservation is closed at most once |
| Ledgers.SettleKeeps | src/skail/routing/budget.py:220-316 | settling keeps the same; a usage record never changes its ids, never falls while it is an estimate, and is frozen once authoritative |
| Ledgers.ReserveReplays | src/skail/routing/budget.py:140-162 | an accepted reservation request that comes again changes nothing in any later state of the books |
| Ledgers.SettleReplays | src/skail/routing/budget.py:240-300 | an accepted settlement that comes again changes nothing: it is answered while its amount stands and refused once a correction replaced it |
| Ledgers.ReserveWarns | src/skail/routing/budget.py:318-336 | with current warning rows, a new reservation reports a crossing exactly when it takes the run to its threshold, and all warning rows stay current |
| Ledgers.ReleaseWarns | src/skail/routing/budget.py:201-218 | a release keeps all warning rows current |
| Ledgers.SettleWarns | src/skail/routing/budget.py:220-316 | a settlement keeps all warning rows current |
| Ledgers.BudgetLedger.ReserveAmount | src/skail/routing/budget.py:131-199 | the steps of the transaction, with its checks in order, refine `Reserve`, whose answers `LedgerAnswers.ReserveAnswers` gives in what run and task have spent; an error leaves the database as it was |
| Ledgers.BudgetLedger.ReleaseReservation | src/skail/routing/budget.py:201-218 | refines `Release` |
| Ledgers.BudgetLedger.SettleReservation | src/skail/routing/budget.py:220-316 | refines `Settle` |
| Ledgers.BudgetLedger.RefreshWarning | src/skail/routing/budget.py:318-336 | writes whether the run is at its threshold and returns whether that is new |
| LedgerAnswers.ReserveAnswers | src/skail/routing/budget.py:131-199 | a request under a new key is accepted exactly when its run and task are known, its id is new, what the reservations of the run cost with the amount and the lead allowance is within the run's limit, and what those of the task cost with it is within the task's; it then holds its amount and no other reservation changes |
| LedgerAnswers.ReserveRepeated | src/skail/routing/budget.py:140-162 | a request under a key in use is answered without any change exactly when it is the same request, and refused otherwise |
| LedgerAnswers.ReleaseAnswers | src/skail/routing/budget.py:201-218 | an open reservation is released, a released one stays as it is, and a settled or unknown one is refused |
| LedgerAnswers.SettleAnswers | src/skail/routing/budget.py:220-316 | a first settlement is accepted exactly for an open reservation, a known cost and ids that no usage record has; the record then holds just that cost |
| LedgerAnswers.SettleCorrects | src/skail/routing/budget.py:240-300 | under the same ids an estimate may be corrected by the actual amount or by a conservative estimate that is no lower, and by nothing else; a different record is refused |
| TaskSpending.TaskCountedOnce | src/skail/routing/budget.py:97-115 | what the ledger calls a task's commitment is the sum over the reservations of that task in that run: the amount of an open one, the usage record of a settled one, nothing for a released one |
| TaskSpending.ReserveFitsTheTask | src/skail/routing/budget.py:168-183 | an accepted new reservation of a task adds exactly its amount to what the task's reservations cost, and with a task limit they stay within it |
| TaskSpending.StepBound | src/skail/routing/budget.py:131-316 | one step takes a task past the limit that its requests carry by at most the step's debt: the amount by which new usage exceeds what was held or recorded |
| TaskSpending.TaskWithinItsLimit | src/skail/routing/budget.py:97-183 | over every run whose requests for a task carry one limit, the task's reservations cost at most that limit, or what they cost before, and the total debt |
| TaskSpending.TaskWithinItsLimitFromTheStart | src/skail/routing/assignment.py:158-168 | in everything that can happen to a new journal, singly or in batches, such a task never costs more than its limit and the debt of its settlements |
| Journals.AvailableIsUncommitted | src/skail/routing/budget.py:65-95 | what a snapshot calls available is the limit minus all usage and all open reservations |
| Selector.SelectModel | src/skail/routing/selector.py:146-223 | one pass over the sorted candidates refines `SelectSpec`, whose choice `Qualifications.SelectsTheFirst` gives in the fields of candidates and request |
| Selector.OrderIndependent | src/skail/routing/selector.py:146-223 | for candidates with distinct keys the outcome depends on the set only |
| Selector.SelectsTheOptimum | src/skail/routing/selector.py:69-223 | a selection is the admissible candidate that outranks all others, a failure means that every candidate is excluded, and the ranking assertion fails exactly when a candidate without a capability rating is admissible for automatic choice |
| Selector.OptimalUnique | src/skail/routing/selector.py:190-209 | there is only one such candidate |
| Selector.OutcomeAccountsForAll | src/skail/routing/selector.py:157-187 | included plus excluded counts are the number of candidates |
| Selector.LargerBudgetKeepsChoice | src/skail/routing/selector.py:133-142 | a larger budget loses an existing choice exactly when it admits an unrated candidate, which no request with a capability floor or an escalation does; otherwise the choice stays in the cost-first modes and under a pin, and in quality mode its fit never falls |
| Selector.MoreBudgetFails | src/skail/routing/selector.py:190-209 | two candidates for which a budget of 1 selects and a budget of 5 ends in the failed assertion |
| Selector.SelectionAffordable | src/skail/routing/selector.py:125-142 | a selected model fits the budget, is unpriced only in manual mode without a budget, and is stronger than the failed one when escalated |
| Qualifications.SelectsTheFirst | src/skail/routing/selector.py:69-209 | in the fields of candidates and request: a selected model is at hand, permitted or pinned, equipped, capable and payable, and its rank tuple precedes that of every other candidate of which this holds; a route failure means that it holds of none; the assertion fails exactly when it holds of an unrated candidate in an automatic mode |
| Qualifications.QualifiesExactly | src/skail/routing/selector.py:69-143 | no reason excludes a candidate exactly when it is configured, healthy, enabled and not excluded by the request, is the pin or open to automatic choice, has the tools, output, sizes and modalities, has both ratings at the floor and above what failed, and has a price that fits |
| Qualifications.RanksInOrder | src/skail/routing/selector.py:190-209 | the ranking compares price, weaker rating, tool reliability, latency and name one after another; in quality mode rating, reliability and price; in manual mode the name |
| Qualifications.ReasonIsTheFirst | src/skail/routing/selector.py:69-143 | the reason given is the first, in the order of the checks, of those that hold of the candidate |
| Qualifications.CountsAreTallies | src/skail/routing/selector.py:154-187 | each counter of an outcome is the number of candidates that its reason excludes, and a reason that excludes none has no counter |
| Qualifications.BindingConstraint | src/skail/routing/selector.py:168-187 | the binding constraint is why the pinned model is excluded, where it is; otherwise the commonest reason among the candidates at hand, or among all when none at hand is excluded, ties broken by name |
| Assignments.Decide | src/skail/routing/assignment.py:166-188 | a chosen model is priced within the funds unless nothing limits the request, has the source's model in a fallback, and is stronger when escalated |
| AssignmentOutcomes.AssignedExactly | src/skail/routing/assignment.py:124-199 | in every state with matched books: the refusals for ownership, source and stale offers in order; a decision made before is answered again; otherwise the candidate that comes first among those qualified for what is asked and left is written, or none qualifies, or the fallback would change the model, and nothing is written; with fresh ids there is no other answer but the failed ranking |
| AssignmentOutcomes.FundsAreLeft | src/skail/routing/assignment.py:141-168 | the selection is made with exactly the amount for which run and task have room, counting what their reservations cost and what giving up the source frees; with no limit at all there is none |
| AssignmentOutcomes.WrittenExactly | src/skail/routing/assignment.py:343-443 | an assignment holds the model, its price, its rating where it is open to automatic choice, its prices and its source; its reservation holds that price for run and task; an open source is released; nothing else changes |
| AssignmentOutcomes.BaselineAsked | src/skail/routing/assignment.py:497-513 | a second attempt asks for more than the fit of the newest assignment of the task's first attempts, or of none when there is none; any other asks for what the request says |
| AssignmentOutcomes.NeverUnpriced | src/skail/routing/assignment.py:174-181 | no request is ever refused because its model has no price for the reservation |
| AssignmentOutcomes.TriesUntilCurrent | src/skail/routing/assignment.py:100-122 | of the offers that are given one after another the first that is not stale decides, or the last |
| Chains.AffordedIsAccepted | src/skail/routing/assignment.py:129-199 | with fresh identifiers, a choice made with fallback credit and task limit is never refused by the reservation that follows it |
| Chains.CreditIsFreed | src/skail/routing/assignment.py:141-157 | releasing the fallback source takes from the run and from the task exactly the credit that the selection was promised |
| Chains.AssignKeeps | src/skail/routing/assignment.py:124-199 | one assignment, with or without a source, keeps every assignment funded by its own reservation, the chains of fallbacks, one decision per key, and sources closed; existing rows stay |
| Chains.EscalationIsStronger | src/skail/routing/assignment.py:497-513 | a new assignment of a second attempt is rated above the newest assignment of the task's first attempts |
| Chains.LinearChain | src/skail/routing/assignment.py:515-531 | the assignments of an attempt form one line: there is one at each depth |
| Chains.OnlyTheNewestIsOpen | src/skail/routing/assignment.py:574-587 | an assignment that still holds money is the newest of its attempt, and no other of the attempt holds any |
| Batches.BatchAnswersEach | src/skail/routing/assignment.py:248-341 | the answer names one assignment for each choice and one deferral for every other request; together they are the requested tasks, each as often as it was requested |
| Batches.SwapMovesMoney | src/skail/routing/assignment.py:189-199 | swapping a fallback in moves the run's commitments by its cost less the credit of its source; the source holds nothing any more |
| Batches.ChosenFit | src/skail/routing/assignment.py:239-300 | all choices of a batch together cost no more than what the lead allowance leaves |
| BatchOutcomes.BatchServes | src/skail/routing/assignment.py:239-300 | each request of a batch is served with what the run has left besides the lead allowance and the earlier choices, and what its task has left: its choice comes first among the candidates that then qualify, or none does and it is deferred |
| BatchOutcomes.BatchWrites | src/skail/routing/assignment.py:301-341 | a batch with a choice writes the lead reservation, and for each choice its assignment and reservation, and keeps all other rows; the answer lists the assignments in the order of the choices and every deferral, and is stored for the same attempts |
| BatchOutcomes.BatchRefuses | src/skail/routing/assignment.py:220-306 | in which order an empty batch, requests of several runs, requests of no attempt, attempts answered before, failed choices and a batch without a choice are answered, and that none of these writes anything |
| BatchOutcomes.RevisionsMatch | src/skail/routing/assignment.py:248-254 | a batch chooses only from offers of the revisions that its requests name |
| Batches.BatchNeverTripsTheRun | src/skail/routing/assignment.py:212-341 | with fresh identifiers a batch of owned requests with something chosen is persisted exactly when the allowance is not negative, the task limits admit the choices together and their decision keys are free; the ledger refuses it for nothing else and never for the run's budget |
| Batches.BatchSucceeds | src/skail/routing/assignment.py:212-341 | a batch of owned requests in one run for different tasks, with matching offers of rated models, fresh identifiers and free keys, always succeeds |
| Batches.DistinctTasksFit | src/skail/routing/assignment.py:255-266 | a batch with at most one request for each task fits every task limit |
| BatchExamples.TogetherTheyFail | src/skail/routing/assignment.py:255-266 | two requests for one task on a concrete database: each alone is assigned, the batch of both is refused for the task's limit, since each is measured against what was committed before the batch |
| Batches.CommitOutcome | src/skail/routing/assignment.py:307-330 | reserving the lead allowance and the choices succeeds exactly when the allowance is not negative, the task limits admit the choices and their decision keys are free, and then commits exactly their sum; each refusal names the condition that fails |
| Batches.BatchKeeps | src/skail/routing/assignment.py:212-341 | a batch, with fallbacks or without, keeps every invariant of the assignments exactly when each chosen fallback finds its source ready in its turn |
| Batches.BatchKeepsBooks | src/skail/routing/assignment.py:212-341 | whatever its sources are, a batch keeps the ledger, the funding and the decision keys, and every row |
| Batches.FallbackNeedsItsSource | src/skail/routing/assignment.py:212-341 | a batch does not look at the sources of its fallbacks: with fresh identifiers what it wrote keeps the chains exactly when, before it, each chosen fallback named an assignment of its attempt and model that held no money |
| BatchExamples.BatchBreaksTheChain | src/skail/routing/assignment.py:319-330 | a concrete batch whose fallback has a source that still holds money: it succeeds, and the invariants are gone |
| AssignmentServices.AssignmentService.TryAssign | src/skail/routing/assignment.py:124-199 | one transaction refines `AssignOnce`; an error rolls it back |
| AssignmentServices.AssignmentService.DecideNew | src/skail/routing/assignment.py:135-199 | the part after the replay check, with credit, task limit, staleness, selection and swap, refines `AssignNew`, whose outcome `AssignmentOutcomes.AssignedExactly` gives in the fields of request and tables |
| AssignmentServices.AssignmentService.PersistChoice | src/skail/routing/assignment.py:343-443 | the reservation and the assignment row refine `Persist` |
| AssignmentServices.AssignmentService.ReleaseFallbackSource | src/skail/routing/assignment.py:574-587 | frees an open source and refreshes the warning row |
| AssignmentServices.AssignmentService.Assign | src/skail/routing/assignment.py:111-122 | the bounded retry loop answers with the first offer that is not stale |
| AssignmentServices.AssignmentService.AssignAll | src/skail/routing/assignment.py:212-341 | all of a batch or nothing of it: refines `AssignBatch` |
| AssignmentServices.AssignmentService.ChooseEach | src/skail/routing/assignment.py:248-300 | the selection loop, which spends what remains, refines `ChooseAll` |
| AssignmentServices.AssignmentService.CommitChoices | src/skail/routing/assignment.py:307-330 | the lead reservation and the loop over the choices refine `Commit` |
| Histories.BeginsInCertainty | src/skail/routing/assignment.py:640-726 | at every begin that is accepted, after any run of the system, all ambiguous calls of the same run have been reconciled to an estimate and no settlement in it has failed |
| Histories.FailedSettlementBars | src/skail/routing/assignment.py:655-676 | from any state in which a settlement of an assignment has failed, no call begins in its run in any later state: nothing closes such a failure |
| FailedSettlements.FailsExactly | src/skail/routing/assignment.py:1126-1151 | a settlement of an attempt succeeds exactly when its reservation is open and the ids are unused, or when it repeats or may correct this attempt's own record; otherwise one more failure is outstanding for its assignment, and no other count moves |
| FailedSettlements.FailuresCount | src/skail/routing/assignment.py:1135-1148 | over any run the outstanding failures of an assignment grow by exactly one for each settlement of it that meets a state outside that condition, and never fall |
| FailedSettlements.RefusedExactly | src/skail/routing/assignment.py:655-676 | whatever has happened to a new journal, a call with a new key is refused for an open failure exactly when a call of its run is ambiguous and not reconciled, or a settlement in its run failed at any time before |
| FailedSettlements.RecoveredThenSettled | src/skail/routing/assignment.py:1126-1151 | seven steps from an empty journal: an assignment, a recovery that releases the money of the live attempt, and its settlement, which fails; after that no call of the run begins |
| CallProtocol.BeginKeeps | src/skail/routing/assignment.py:640-726 | beginning a call keeps the protocol: ambiguous exactly with a failure record, recorded usage only for completed calls, each key used once |
| CallProtocol.SucceededKeeps | src/skail/routing/assignment.py:728-747 | marking a call as succeeded keeps the protocol and changes no final status |
| CallProtocol.AmbiguousKeeps | src/skail/routing/assignment.py:749-774 | marking a call as ambiguous keeps the protocol and changes no final status |
| CallProtocol.RejectedKeeps | src/skail/routing/assignment.py:776-798 | marking a call as rejected keeps the protocol and changes no final status |
| CallProtocol.UnreturnedKeeps | src/skail/routing/assignment.py:907-930 | turning all started calls of an assignment ambiguous keeps the protocol |
| CallProtocol.RecordKeeps | src/skail/routing/assignment.py:818-905 | recording usage keeps the protocol and never changes recorded usage |
| CallOutcomes.StatusAfter | src/skail/routing/assignment.py:728-930 | after any transaction a started call has the status that it says: completed by success or by its recorded response, ambiguous when doubted or left without a response, rejected by a definite refusal; any other call keeps its status, and a new one has started |
| CallOutcomes.FirstOutcomeStands | src/skail/routing/assignment.py:728-930 | over any run a call ends with an outcome exactly when the first transaction that decided it, once it had begun, says so |
| CallOutcomes.FirstOutcomeFromTheStart | src/skail/routing/assignment.py:728-930 | the same for everything that can happen to a new journal |
| CallOutcomes.MarksRefused | src/skail/routing/assignment.py:728-798 | which marks are refused, by the status of the call |
| CallOutcomes.BeginAnswers | src/skail/routing/assignment.py:640-726 | a new call is refused for a key its assignment has used, for a call or a settlement of its run in doubt, for known costs that have reached the limit and for a reservation that is not open, in this order; otherwise it has started, next in its assignment |
| ObservedCosts.StoredRow | src/skail/routing/assignment.py:818-890 | the usage row holds the tokens counted and their price where there is one; a response that cannot be read leaves an unknown cost |
| ObservedCosts.RecordingObserves | src/skail/routing/assignment.py:892-905 | recording the response of a started call completes it and raises the observed cost of its run by exactly the price of its tokens, or by nothing when there is no price |
| ObservedCosts.ObservedIsKnown | src/skail/routing/assignment.py:680-703 | when amounts agree with usage rows, the observed cost of a run is the sum of the known costs in the usage rows of its completed calls |
| ObservedCosts.StepKeepsAmounts | src/skail/routing/assignment.py:818-906 | every transaction keeps that agreement, except exactly a recording under an assignment that is not the call's own and that changes its cost |
| ObservedCosts.RecordedElsewhere | src/skail/routing/assignment.py:818-906 | in every state: recording a completed call with a known cost once more, as unreadable and under another assignment, takes that cost off what the guard observes, although its usage row stays |
| ObservedCosts.RecordedElsewhereIsForgotten | src/skail/routing/assignment.py:818-906 | such a recording, after which the guard has forgotten a cost of 2 |
| ObservedCosts.BeginsBelowTheLimit | src/skail/routing/assignment.py:680-703 | whatever has happened to a new journal in which calls are recorded under their own assignments: a call with an open reservation, a new key and nothing uncertain begins exactly when the known costs in the usage rows of the run's completed calls are below its limit, and is refused for the budget otherwise |
| ObservedCosts.NoneBeginsAtTheLimit | src/skail/routing/assignment.py:680-703 | once they have reached the limit no call of the run begins |
| Calls.TokenCostMeaning | src/skail/routing/assignment.py:1158-1182 | a cost is known exactly with tokens and both prices; cached input at a lower rate never makes a call dearer |
| AttemptCosts.TokenCostExactly | src/skail/routing/assignment.py:1158-1182 | the cost of tokens is the ordinary input, the cached input at its own or the input rate, and the output, each at its price for a million |
| AttemptCosts.PricesArePerMillion | src/skail/routing/assignment.py:1158-1182 | a million input tokens cost the input price and a million output tokens the output price |
| Reconciliations.PreviewIsApplied | src/skail/routing/assignment.py:932-1045 | the previewed amount is the amount that reconciling reports and, exactly when no open call is left, settles; an already settled attempt is left alone |
| Reconciliations.ReconcileAllIsReconciled | src/skail/routing/assignment.py:1020-1045 | reconciling calls of an attempt one after another, in any order and with repeats, gives exactly the state or the error of estimating their set and settling once at the end |
| Reconciliations.OrderDoesNotMatter | src/skail/routing/assignment.py:1020-1045 | two orders over the same calls of an attempt succeed or fail together, end in the same state when they succeed, and give the same error whenever every call can be previewed |
| Reconciliations.SettlesAtThePreview | src/skail/routing/assignment.py:1012-1045 | such a sequence over an attempt that is not settled succeeds exactly when a call stays open or the attempt's reservation can be settled, and settles exactly when nothing is left open, at the amount previewed at the start |
| Reconciliations.SettledAmount | src/skail/routing/assignment.py:1071-1109 | a settlement costs the sum of the call costs when every call is measured, and otherwise at least that sum and at least the frozen estimate |
| AttemptCosts.SettlesAtTheCharge | src/skail/routing/assignment.py:1077-1135 | a first settlement records, when there are rows, each with a cost or tokens with prices, and each call not rejected has one, what the rows count, as derived from tokens; otherwise no less than the frozen estimate and no less than that sum, as an estimate |
| AttemptCosts.UnmeasuredSettlesAtTheEstimate | src/skail/routing/assignment.py:1077-1115 | one row without a cost and without tokens or a main price is enough: the settlement costs at least the frozen estimate and is an estimate |
| AttemptCosts.KnownCostsSettle | src/skail/routing/assignment.py:1077-1104 | with a known cost for every call the attempt settles at the sum of the rows' amounts |
| AttemptCosts.PricedRowCounts | src/skail/routing/assignment.py:1077-1104 | a row without a cost but with tokens and prices adds exactly the price of its tokens |
| AttemptCosts.PreviewAnswers | src/skail/routing/assignment.py:932-1010 | which previews are refused, and otherwise that the cost shown is the larger of the estimate and what the rows count, and that nothing remains exactly when no call of the attempt is unanswered and no settlement has failed |
| UsageSettlers.AssignmentUsageSettler.Begin | src/skail/routing/assignment.py:640-726 | refines `BeginCall` |
| UsageSettlers.AssignmentUsageSettler.Succeed | src/skail/routing/assignment.py:728-747 | refines `MarkSucceeded` |
| UsageSettlers.AssignmentUsageSettler.BecomeAmbiguous | src/skail/routing/assignment.py:749-774 | refines `MarkAmbiguous` |
| UsageSettlers.AssignmentUsageSettler.Reject | src/skail/routing/assignment.py:776-798 | refines `MarkRejected` |
| UsageSettlers.AssignmentUsageSettler.LeaveUnreturned | src/skail/routing/assignment.py:907-930 | the loop over the started calls, in any order, makes all of them ambiguous and counts them |
| UsageSettlers.AssignmentUsageSettler.Record | src/skail/routing/assignment.py:818-905 | refines `RecordCall`, whose effect on the row, the call and the observed cost is that of `ObservedCosts.StoredRow`, `CallOutcomes.StatusAfter` and `ObservedCosts.RecordingObserves` |
| UsageSettlers.AssignmentUsageSettler.SumKnown | src/skail/routing/assignment.py:1077-1104 | the loop over the usage rows sums the known costs and tells whether all are known; what is known of a row is what `AttemptCosts.MeasuredExactly` reads off its fields |
| UsageSettlers.AssignmentUsageSettler.SettleCosts | src/skail/routing/assignment.py:1050-1135 | refines `SettleUsage`, which records the amount and the authority of `AttemptCosts.SettlesAtTheCharge` |
| UsageSettlers.AssignmentUsageSettler.SettleOne | src/skail/routing/assignment.py:1047-1151 | refines `SettleAttempt`: a refused settlement leaves an open failure |
| UsageSettlers.AssignmentUsageSettler.ReconcileCall | src/skail/routing/assignment.py:1020-1045 | refines `Reconcile`: a refused settlement undoes the estimate mark |
| Recoveries.NothingIsLeftBehind | src/skail/sessions/recovery.py:52-102 | afterwards every assigned or running attempt is live in the checkpoint and every running task has such an attempt |
| Recoveries.ReleasesExactlyTheOrphans | src/skail/sessions/recovery.py:103-118 | a reservation is released exactly when it was open and its task is orphaned and has no started or ambiguous call |
| Recoveries.RecoveryFreesMoney | src/skail/sessions/recovery.py:103-118 | what a run has committed falls by exactly the open reservations of its releasable tasks, and no limit changes |
| Recoveries.RecoveryIsIdempotent | src/skail/sessions/recovery.py:36-126 | a second recovery from the same checkpoint changes nothing |
| Recoveries.RecoveryKeeps | src/skail/sessions/recovery.py:36-126 | recovery keeps the invariants of ledger, assignments and calls |
| Recoveries.StaysRunning | src/skail/sessions/recovery.py:71-102 | a running task goes on running exactly when it has a live attempt and no dead one; a live attempt alone does not keep it |
| RecoveryEffects.RecoveredStatuses | src/skail/sessions/recovery.py:52-102 | an unfinished attempt of the session whose key the checkpoint does not know is interrupted; a running task that lost one, or has none that survives, is returned to the lead; no other attempt and no other task changes |
| RecoveryEffects.RecoveredMoney | src/skail/sessions/recovery.py:103-118 | an open reservation is released exactly when its task lost an attempt or is stranded and no call of it is started or ambiguous; nothing else in the journal changes |
| RecoveryEffects.ReportSays | src/skail/sessions/recovery.py:119-137 | the report names the lost attempts, the stranded tasks that lost none, the released reservations and the calls in doubt |
| Recoveries.LiveAttemptIsNotEnough | src/skail/sessions/recovery.py:69-118 | a task with one live and one dead attempt, which is returned to the lead while the live attempt stays, and whose money is released |
| Recoveries.WarningsAfterRecovery | src/skail/sessions/recovery.py:103-118 | recovery does not refresh the warning rows: they stay current exactly when every run at its threshold still reaches it without what recovery will release |
| Recoveries.WarningCanStayUp | src/skail/sessions/recovery.py:103-118 | a run for which they do not |
| Recoveries.SessionRecovery.RecoverSession | src/skail/sessions/recovery.py:36-137 | the three loops refine `Recover`, and the report names what was interrupted, released and ambiguous |
| Recoveries.SessionRecovery.InterruptAttempts | src/skail/sessions/recovery.py:69-86 | the first loop interrupts the attempts that are not live and returns their running tasks |
| Recoveries.SessionRecovery.ReturnTasks | src/skail/sessions/recovery.py:87-102 | the second loop returns the running tasks that no live attempt protects |
| Recoveries.SessionRecovery.ReleaseOrphans | src/skail/sessions/recovery.py:103-118 | the third loop releases what the orphaned tasks hold |
| Histories.StepKeeps | src/skail/sessions/journal.py:858-904 | every transaction, accepted or failed, keeps all invariants of the shared tables, except exactly a batch that persists a fallback whose source is not ready; and every transaction only adds to what is recorded |
| Histories.RunKeeps | src/skail/sessions/journal.py:858-904 | the invariants hold all along a sequence of transactions exactly when each batch in it finds the sources of its fallbacks ready |
| Histories.RunKeepsSound | src/skail/sessions/journal.py:858-904 | over every sequence of transactions, whatever its batches ask for, money stays linked and counted once, assignments funded and decided once, calls follow their protocol, and nothing recorded is lost or reopened |
| Histories.FromTheStart | src/skail/sessions/journal.py:858-904 | the same for everything that can happen to a new journal |
| Histories.ReserveAgainLater | src/skail/routing/budget.py:140-162 | whatever happens later, an accepted reservation is answered again without effect |
| Histories.SettleAgainLater | src/skail/routing/budget.py:240-300 | whatever happens later, an accepted settlement that comes again changes nothing: it is answered while its amount stands, and refused exactly when a correction replaced it |
| Histories.DecisionsAreFinal | src/skail/routing/assignment.py:131-134 | whatever happens later, a decision is answered with the assignment that was made for it |
| Histories.OutcomesAreFinal | src/skail/routing/assignment.py:728-798 | whatever happens later, a completed, rejected or ambiguous call stays what it is |
| Overspending.StepBound | src/skail/routing/budget.py:163-183 | one step takes a run over its limit by at most the step's debt: the amount by which new usage exceeds what was held or recorded before |
| Overspending.RunBound | src/skail/routing/budget.py:65-95 | over any run of the system a run's commitments stay within its limit, or within what it had committed before, up to the total debt |
| Overspending.AvailableBound | src/skail/routing/budget.py:65-95 | seen from the ledger: what is available falls below zero by at most the total debt |
| Overspending.WithinTheLimit | src/skail/routing/budget.py:65-95 | from its creation on, a run never commits more than its limit plus the debt |
| Overspending.EveryRunWithinItsLimit | src/skail/routing/budget.py:131-199 | in everything that can happen to a new journal no run has committed more than its limit and the debt of its settlements |
| Warnings.StepWarns | src/skail/routing/budget.py:318-336 | every transaction keeps the warning rows current, except exactly a recovery that takes a run below its threshold |
| Warnings.RunWarns | src/skail/routing/budget.py:318-336 | so do all sequences without such a recovery |
| Warnings.WarningsFromTheStart | src/skail/routing/budget.py:318-336 | before its first recovery, a journal's warning rows are current in every state |
| Warnings.WarningMeaning | src/skail/routing/budget.py:318-336 | in such a run a warning row is set exactly when the run has a positive limit and what its reservations cost, each counted once, has reached the given part of it |
| Graphs.FindCycle | src/skail/runtime/task_registry.py:167-183 | the depth-first search reports a cycle exactly when the graph has one |
| Graphs.DepthFirstSearch.Visit | src/skail/runtime/task_registry.py:171-181 | a visit that reports a cycle has found one; otherwise the node is finished and the path restored |
| Graphs.TopologicalMeansAcyclic | src/skail/runtime/task_registry.py:167-183 | a graph whose finishing order lists every dependency first has no cycle |
| Plans.ValidateGraph | src/skail/domain/plans.py:67-96 | a plan is accepted exactly when its ids and objectives are unique and its graph is closed and acyclic, with the error of the first check that fails |
| TaskRegistries.RegistersExactlyWellFormed | src/skail/runtime/task_registry.py:36-83 | a batch is registered exactly when the registry with it is closed, acyclic, unique in its fingerprints and follows parents in its depths, and the batch is not exhausted or dead |
| TaskSuccession.RegistersOne | src/skail/runtime/task_registry.py:36-83 | one task is registered exactly when its id and fingerprint are new, the fingerprint has failed less than twice, its depth follows its parent, and each task it depends on is known and was not returned, blocked or cancelled; it waits as proposed and nothing else changes |
| TaskSuccession.FailureCounts | src/skail/runtime/task_registry.py:118-128 | a failure counts for a task that failed or was returned, and after the second no task with its fingerprint registers |
| TaskRegistries.HistoryKeepsIntegrity | src/skail/runtime/task_registry.py:36-128 | every history of registrations, transitions and failures keeps that integrity |
| TaskRegistries.HistoryOnlyEvolves | src/skail/runtime/task_registry.py:36-128 | registered specifications never change and failure counts never fall |
| TaskRegistries.DepthIsChainLength | src/skail/runtime/task_registry.py:36-83 | a task's depth is the length of its chain of parents |
| TaskRegistries.TaskRegistry.RegisterMany | src/skail/runtime/task_registry.py:36-83 | refines the registration; a refused batch changes nothing |
| TaskRegistries.TaskRegistry.Transition | src/skail/runtime/task_registry.py:95-116 | the compare-and-set transition over the table of task statuses |
| TaskRegistries.TaskRegistry.RecordFailedAutomaticAttempt | src/skail/runtime/task_registry.py:118-128 | counts failures of a fingerprint up to two |
| Tasks.TransitionsExactly | src/skail/domain/tasks.py:51-98 | read backwards: from which statuses each status is reached, a failed task only after its first attempt is queued again, and where repeating an end is accepted |
| Scheduler.ChildScheduler.Run | src/skail/runtime/scheduler.py:152-201 | every operation gets exactly one result, the one of `VerdictOf`, and the scheduler ends as `Recorded` says, blocks included; the schedule starts exactly the operations that run, once each, each as the first that could start by priority and only within the cap, and waits only when nothing can be started |
| Scheduler.SchedulesAgree | src/skail/runtime/scheduler.py:152-201 | all complete schedules, whatever finishes when, run the same operations once each and leave the scheduler in the same state |
| Scheduler.AlongASchedule | src/skail/runtime/scheduler.py:152-201 | at every point of a schedule at most the cap is running, only operations that run were started, and the scheduler holds what the ended ones determine |
| Scheduler.StartsTheHighest | src/skail/runtime/scheduler.py:96-113 | what a run starts waits for no approval, is not blocked and has its dependencies completed, and of all such operations it has the highest priority and among those the earliest creation |
| Scheduler.RunsIffDependenciesSucceed | src/skail/runtime/scheduler.py:96-113 | from a fresh scheduler an operation keeps its own outcome exactly when everything it depends on, directly or not, succeeds |
| Scheduler.DependentsOfUnsuccessful | src/skail/runtime/scheduler.py:203-207 | nothing that depends on an unsuccessful task runs |
| Scheduler.ChildScheduler.BlockDependents | src/skail/runtime/scheduler.py:203-207 | the recursion terminates and marks exactly the transitive dependents |
| Scheduler.ChildScheduler.Submit | src/skail/runtime/scheduler.py:37-52 | dependencies point to earlier submissions |
| Scheduler.ChildScheduler.Finish | src/skail/runtime/scheduler.py:54-63 | a failure blocks exactly the transitive dependents |
| Scheduler.ChildScheduler.Cancel | src/skail/runtime/scheduler.py:65-70 | a cancellation blocks the same tasks with its own reason |
| Scheduler.FreesOnlyOne | src/skail/runtime/scheduler.py:72-83 | an approval or a retry leaves every other task as ready as it was, and makes its own task ready exactly when nothing but the approval, or its failure, stood in the way; a later run loses no operation and gains only that task and what depends on it |
| Scheduler.BlockedExactly | src/skail/runtime/scheduler.py:54-83 | after any submissions, results, cancellations, approvals and retries the blocked tasks are exactly those blocked before and those above a task that was recorded as unsuccessful: no call unblocks a task |
| Scheduler.FailureBarsForGood | src/skail/runtime/scheduler.py:54-83 | a task above a failed or cancelled one is never ready again, whatever calls follow |
| Scheduler.RetryHelpsNoDependent | src/skail/runtime/scheduler.py:54-83 | after a failure, a retry and a success of a task exactly those tasks are ready that were ready before and do not depend on it |
| Scheduler.RetriedTooLate | src/skail/runtime/scheduler.py:79-83 | a pair of tasks: the first fails, is retried and succeeds, the second stays blocked, and one submitted afterwards is ready |
| Scheduler.ChildScheduler.StartReady | src/skail/runtime/scheduler.py:166-179 | continues the schedule by starts alone, each of the first pending operation by priority and creation order that is ready then, until the cap is reached or none is ready; what left the pending operations is what is running now |
| Scheduler.ChildScheduler.RecordDone | src/skail/runtime/scheduler.py:187-200 | operations that finish together are recorded in any order, with one state and one set of results |
| Scheduler.NoneLeftBehind | src/skail/runtime/scheduler.py:180-186 | when nothing is running or can start, no operation that is left can ever run, which is why it is reported as blocked |
| Scheduler.WhyNotRun | src/skail/runtime/scheduler.py:180-186 | an operation that does not run is reported as cancelled exactly when that is why it was blocked to begin with, and as having an unsuccessful dependency otherwise |
| Scheduler.ChildScheduler.TryStart | src/skail/runtime/scheduler.py:122-135 | a single execution starts only among the first ready tasks that fit the cap |
| Scheduler.ChildScheduler.EndExecution | src/skail/runtime/scheduler.py:136-150 | how an execution's end is recorded, and that it always leaves the running set |
| Captures.CaptureIsTheDifference | src/skail/runtime/workspace_capture.py:232-311 | a captured changeset lists exactly the differing paths, in order and once each, with the effect and the readable images of both sides, inside the declared scope; its patch takes the snapshot to the worktree |
| Captures.CaptureAppliesElsewhere | src/skail/runtime/changeset_integration.py:42-53 | on any workspace that agrees with the snapshot on the captured paths the patch gives the worktree's content there and changes nothing else |
| Captures.CaptureSucceeds | src/skail/runtime/workspace_capture.py:246-311 | over complete artifacts a capture succeeds exactly when manifest and evidence are consistent, something differs, and the contract of a changeset is met |
| Captures.SnapshotFiles | src/skail/runtime/workspace_capture.py:257-290 | the snapshot's file at a path is the content that its record attests by digest and size; a path without a record, or with a null or deleted one, has none; any other record spoils the snapshot |
| PathRules.ContractExactly | src/skail/domain/changesets.py:90-113 | a changeset meets its contract exactly when it names scopes and paths, no two paths fold to one name, the parts of each scope stay below, and the parts of each path begin with those of a scope |
| PathRules.InScopeExactly | src/skail/domain/changesets.py:107-113 | a path is in a scope exactly when the parts of the scope are its first parts |
| PathRules.ValidExactly | src/skail/domain/changesets.py:20-34 | a relative path is valid exactly when none of its parts is empty, a dot or two dots, or has a colon or a backslash |
| Captures.PatchRebuildsTheWorktree | src/skail/runtime/workspace_capture.py:257-299 | diff and patch are inverse |
| Captures.CaptureChangeset | src/skail/runtime/workspace_capture.py:232-311 | the scan, the comparison loop and the contract check refine `Capture`; published artifacts are never overwritten |
| Captures.Compare | src/skail/runtime/workspace_capture.py:257-299 | the loop over the sorted paths refines `DiffEach` |
| ChangeSets.ImmutableArtifactStore.Publish | src/skail/runtime/workspace_capture.py:47-67 | stores content under its digest and never replaces what is stored |
| ChangeSets.ImmutableArtifactStore.Read | src/skail/runtime/workspace_capture.py:69-79 | returns only content with the digest and the size of the image |
| ChangeSets.FoldedDistinct | src/skail/domain/changesets.py:100-104 | a changeset without collisions names no file twice, whatever the case of its name |
| Integrations.StartsOnce | src/skail/sessions/journal.py:305-340 | under any attempted transitions a changeset starts applying at most once, and never again after leaving its captured state |
| Integrations.EndsForGood | src/skail/sessions/journal.py:305-340 | integrated and blocked are final over any history; what is in doubt can only become one of them, and what is being applied is never captured again |
| Integrations.TransitionsExactly | src/skail/sessions/journal.py:305-340 | from which statuses each status is reached, and that a transition changes the status alone |
| Integrations.PrefixImages | src/skail/runtime/changeset_integration.py:42-53 | between two effects every path of the changeset has its before or its after image, the applied ones first |
| Integrations.ImageInPlace | src/skail/runtime/changeset_integration.py:69-75 | an image is in place exactly when the file has its digest and its size, or neither exists |
| Integrations.PatchedIsValid | src/skail/runtime/changeset_integration.py:73-75 | after images that can be read are the ones found in place |
| Integrations.ChangeSetIntegrator.Integrate | src/skail/runtime/changeset_integration.py:27-58 | wherever it stops, exactly a prefix of the changes has been made besides one temporary file; blocked exactly on a base mismatch with the workspace untouched; integrated only with every after image in place, and always so without faults |
| Integrations.ChangeSetIntegrator.ApplyEach | src/skail/runtime/changeset_integration.py:42-52 | the loop: a prefix is applied, all of it but perhaps the last change marked in the journal |
| Integrations.ChangeSetIntegrator.ApplyOne | src/skail/runtime/changeset_integration.py:77-91 | one file is replaced or removed as a whole, or not at all |
| Integrations.ChangeSetIntegrator.CheckImages | src/skail/runtime/changeset_integration.py:69-75 | tells whether every path has its image |
| Integrations.ChangeSetIntegrator.Recover | src/skail/runtime/changeset_integration.py:60-67 | an interrupted application becomes in doubt; nothing else changes |
| Deliveries.Deliver | src/skail/runtime/changeset_integration.py:27-58 | integrating a captured changeset: blocked exactly when the workspace no longer agrees with the snapshot; at every stop the worktree's content is in place for a prefix of the captured paths and nothing else has changed; it completes without faults, and a workspace equal to the snapshot becomes the worktree |
| Deliveries.BaseMeansAgreement | src/skail/runtime/changeset_integration.py:69-75 | the before images of a captured changeset are on disk exactly when the workspace agrees with the snapshot at the captured paths |
| Floors.EscalatedFloorPasses | src/skail/routing/requirements.py:106-120 | the floor built for a second attempt passes the graph's check in all modes but economy, where it passes exactly when the hard minimum is at least ten hundredths below the base |
| Floors.PublishedFloors | src/skail/routing/requirements.py:20-35 | the floors of the roles for a trivial task and of the risks for an explorer |
| Floors.HighestDemandCounts | src/skail/routing/requirements.py:105-117 | an automatic floor is the highest of what role, risk and hint set alone, up to the cap |
| Floors.ModesCompared | src/skail/routing/requirements.py:36-41 | economy takes at most ten hundredths off and never goes below the hard minimum, quality and an escalation add fifteen up to their caps, and exactly manual mode has no floor |
| Floors.EconomyFloorFails | src/skail/routing/requirements.py:106-120 | a role and a risk for which it does not |
| Floors.BuiltRequestsAreRanked | src/skail/routing/requirements.py:113-128 | a request whose floor the builder set, which it does in every mode but manual, never ends in the selector's failed assertion |
| TaskGraphs.TaskGraph.Run | src/skail/agents/task_graph.py:141-445 | for all callbacks that return a route or a result: only legal transitions, at most two attempts in order, each evaluated one settled once, one persisted result that is never failed, and no reuse of the first model when assignment honours the exclusion; the registry ends succeeded exactly when the result is done, cancelled when withdrawn, returned when returned, budget blocked when out of budget after an execution, blocked when obstructed or without a route; the result is what came of the last execution or refusal, and carries why; each attempt is recorded as its execution came; a second one only follows a failure; an error is due to the last reply, and the attempt it ends is not settled |
| TaskGraphs.RunWithoutMoney | src/skail/agents/task_graph.py:148-190 | a run in which they disagree: the result is budget blocked, the registry blocked |
| TaskSuccession.RunThenRegister | src/skail/agents/task_graph.py:383-398 | a new task that depends on this one alone is registered after the run exactly when the run did not end or ended with success, and is otherwise refused as depending on an unsuccessful task |
| TaskGraphs.TaskGraph.Transition | src/skail/runtime/task_registry.py:95-116 | the registry accepts every transition the graph asks for |
| TaskGraphs.TaskGraph.AssignAttempt | src/skail/agents/task_graph.py:148-269 | a missing route blocks the task; a binding must match the attempt and raise the floor |
| TaskGraphs.TaskGraph.RunAttempt | src/skail/agents/task_graph.py:271-336 | the task is running, and an exception counts as a failed result |
| TaskGraphs.TaskGraph.Evaluate | src/skail/agents/task_graph.py:338-426 | records and settles the attempt and its reason, then ends the task, with the result that `Run` ties to the execution, or queues it once more |
| TaskGraphs.TaskGraph.Finish | src/skail/agents/task_graph.py:400-410 | persists one result, with failed turned into returned to lead |
| Decisions.AdmittedDecision | src/skail/runtime/decisions.py:146-173 | an admitted decision obeys the mode rules and the intent, never goes back to direct, and after the first plan is exactly one revision higher |
| DecisionRules.AcceptedExactly | src/skail/runtime/decisions.py:146-256 | a submission is accepted exactly when it can be read, obeys the rules for mode, discovery, agents and scopes in its own fields, is the first or continues the decision before it by one revision, and its plan can be recorded; it is then the gate's decision and nothing else changes |
| DecisionRules.ModeExactly | src/skail/domain/decisions.py:29-50 | a direct decision has no plan and no revision, any other has a first plan or says that it replaces the one before it, and a discovery has a checkpoint and only reads |
| DecisionRules.IntentExactly | src/skail/runtime/decisions.py:175-239 | the intent is met exactly when mode, number of agent nodes and profile of each agree, and, if agents are asked for, each agent names a scope and no two scopes contain one another |
| DecisionRules.StandingDecisionObeys | src/skail/runtime/decisions.py:70-143 | after any run of a fresh gate the decision that stands obeys all of these rules |
| DecisionRules.RefusalSpends | src/skail/runtime/decisions.py:146-294 | a refused submission spends a repair, while there is one, unless it names the wrong revision or obeys the rules and does not continue the decision that stands |
| DecisionRules.CallIsAnswered | src/skail/runtime/decisions.py:97-141 | how each kind of call is answered: questions go through, an outstanding answer holds up all else, an operation needs a decision, a decision call is prepared exactly when it is acceptable |
| Decisions.RunKeeps | src/skail/runtime/decisions.py:70-143 | over any sequence of submissions and responses repairs stay within two and never rise, a decision never disappears, prepared and rejected calls stay disjoint, and answers stand |
| Decisions.OperationsFollowDecisions | src/skail/runtime/decisions.py:97-141 | an operation of a response goes through only when a decision was accepted before it in order and no answer is outstanding |
| Decisions.AcceptedScopesDisjoint | src/skail/runtime/decisions.py:184-239 | under an intent about agents every accepted plan has agents with non-empty scopes, none a prefix of another |
| Decisions.ExhaustionDoesNotLock | src/skail/runtime/decisions.py:70-173 | over any run, however many repairs there are to begin with, the same decisions are accepted and the same calls prepared and rejected |
| Decisions.RepairsOnlyName | src/skail/runtime/decisions.py:291-294 | exhaustion is reported exactly when no repair is left for a rejection that would spend one; every other answer is the same with or without repairs |
| Decisions.ExhaustedGate | src/skail/runtime/decisions.py:146-173 | two unreadable calls use up the repairs of a fresh gate; a third is told so, and every decision that the fresh gate admits is still admitted |
| Decisions.DirectAfterExhaustion | src/skail/runtime/decisions.py:146-173 | the same for a request without demands and the decision to act directly |
| Decisions.ExecutionDecisionGate.ValidateConstraints | src/skail/runtime/decisions.py:175-239 | the nested loops over agents and scopes find a fault exactly when the declarative conditions fail |
| Decisions.ExecutionDecisionGate.AdmitDecision | src/skail/runtime/decisions.py:146-173 | refines `Admit`, including which refusals spend a repair |
| Decisions.ExecutionDecisionGate.PrepareResponse | src/skail/runtime/decisions.py:97-141 | the loop over the calls of a response refines `PrepareAll` |
| Packing.PackIsBounded | src/skail/sessions/compaction.py:201-227 | a whole prefix, at most one cut piece of the next component, everything else named as omitted; the total never exceeds the budget and equals it when a piece is cut |
| Packing.Compact | src/skail/sessions/compaction.py:201-225 | the packing loop refines `Pack` |
| Packing.TokensRoundUp | src/skail/agents/context.py:122-123 | four characters count as one token, and so does a rest |
| Packing.FillIsMaximal | src/skail/agents/context.py:88-107 | the assembled packet stays within the limit or holds the required parts only, and every omitted reference would still overflow at the end |
| Packing.EachIsPlacedOnce | src/skail/agents/context.py:88-100 | every distinct reference is placed exactly once, chosen or omitted |
| Packing.EachIsScrubbed | src/skail/agents/context.py:63-118 | what is placed is one of the references, with its content scrubbed and its tokens counted anew |
| Packing.Assemble | src/skail/agents/context.py:63-107 | the assembly loop refines `Fill` |

## Left out

- Histories.RunKeepsSound: a new call id is taken to be unused, as the program's random ids are.
- FailedSettlements.FailsExactly: a settlement fails here for what the ledger refuses, not for errors of the storage.
- CallProtocol.RecordKeeps: usage may be recorded under an assignment that is not the call's own, as in the program, so a call's observed amount is not claimed to be immutable.
- Integrations.ChangeSetIntegrator.Integrate: without outside writers; directories, symbolic links and path escapes are not part of the flat file map.
- Captures.CaptureChangeset: the worktree scan is given as a stable map; file limits, reparse points and changes during a scan are left out, and so are the formats of identifiers.
- TaskGraphs.TaskGraph.Run: settling and persisting are taken to return, so an exception of theirs is not modelled; context packets, leases, events and the scheduler's part in a task are left out.
- Recoveries.SessionRecovery.RecoverSession: the lists of the report are sets, pending approvals and the reconciliation of plan nodes are left out, and so is the legacy reservation status "active".
- Decisions.RunKeeps: reloading a persisted decision (`restore`) is left out, and normalising arguments and rendering errors are reduced to whether arguments can be read.
- Packing.Assemble: omissions are the omitted components, not their rendered names.
- Usage rows without a reservation, which only the journal's own `record_usage` writes.
- Decimal text: amounts are compared as values, while replays in the program compare their texts.
- Authoritative call usage: the accounting of calls never writes it, so it is not a column here.
- Events, their sequence numbers and after-commit observers.
- `TaskRegistry.load_from_journal`, leases and the child run gate, session and plan-node tables.
- `select_lead_model`, catalogue and configuration merging, floating-point rounding of floors (whole hundredths here).
- SQL text, connection pooling, file locks, provider calls, the user interface.
