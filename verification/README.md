# Verification models of the close engine

These Dafny modules model the deterministic cores of a month-end close engine and prove
properties of them: bank-to-ledger reconciliation, the cash control and the adjustments derived
from it, the in-memory task workflow, the durable task queue, the creation of Xero DRAFT
journals, incremental Plaid synchronisation, the close run from snapshot to approval, the
reports, and three small monitors.

`dafny verify dfyconfig.toml` checks the whole project.

## How the models are built

Code that changes state step by step is modelled by methods and classes with the same fields,
branches and loops. Each of those is proved equal to a specification function on values, and the
main results are lemmas about any input, any list of commands or any interleaving of steps of
that function. The `Effects`, `Codes` and `Outcomes` files, `Derivations` and the `…Meaning` and
`…ExactlyWhen` lemmas say what each operation does in terms of its inputs alone, so that they do
not depend on how the specification functions are written.

| files | system part |
|---|---|
| `Reconciliation`, `Sequences`, `GroupSearch`, `ReconciliationRuns`, `ReconciliationTotals`, `ReconciliationStatuses`, `ReconciliationCodes` | the greedy matcher and what a finished run guarantees |
| `CloseControls`, `CashControl`, `Derivations`, `Adjustments`, `Journals` | facts projected into transactions, the cash control, proposed adjustments |
| `Reports` | trial balance and close reports |
| `Workflow`, `Readiness`, `WorkflowRuns`, `WorkflowTheorems`, `WorkflowEffects` | the in-memory task DAG with leases, retries, cancellation and an event log |
| `DurableQueue`, `DurableQueueRuns`, `DurableQueueEffects`, `DurableQueueTheorems`, `QueuedActions`, `ReviewedRuns` | the task table shared by workers; one step per database transaction |
| `DraftActions`, `DraftActionsTheorems`, `DraftOutcomes` | search, create and read back a DRAFT journal against lost answers and dying workers |
| `PlaidSync`, `PlaidSyncTheorems` | the staged multi-page cursor sync |
| `CloseRuns`, `CloseRunEffects`, `CloseRunTheorems` | snapshot freeze, package, approval and action outcomes of one run |
| `ConnectionPool`, `WebhookKeys`, `TokenRotation` | the bounded pool, the key cache with its rate window, the refresh-token rotation |

## Premises

- `Decimal` amounts are exact reals; dates and clock readings are integers.
- Hashes are injective, so a hash is modelled by what it covers. A truncated marker is taken to
  identify its run and content as the full hash would.
- Generated identifiers are new. Where that matters it is a stated premise of the theorem
  (a newly opened connection, a token the provider gives out, a fresh action id).
- Database transactions are atomic and read one clock; the trigger on run states is part of the
  queue model.
- Draft creation: one execution at a time per proposal, and a create request has taken effect or
  never will by the time its failure is handled. `AtMostOneDraft`, `RetryRecovers` and
  `DraftOutcomes.RecoversExactlyWhen` also take a
  first search that answers to be exact; `DraftsMultiplyExactlyWhen` does not.
- Webhook key fetches: the clock reading taken before the lock does not go back from one lookup
  to the next.

## Where the code and what one might expect of it differ

Each of these is proved with a concrete input or run, beside the exact condition under which the
expected property does hold.

- Reconciliation hides a ledger transaction that shares its id with a bank transaction
  (`ReconciliationStatuses.SharedIdHidesALedgerTransaction`, exactly when in
  `ReconciliationStatuses.LedgerReportedExactlyWhen`); the prefixes that the derivation
  puts on ids rule this out (`CashControl.DerivedIdsApart`).
- A run can be approved with an approved proposal still untouched, because only the actions
  recorded so far are looked at (`DraftActionsTheorems.ApprovedTooEarly`,
  `CloseRunTheorems.ApprovedTooEarlyAndTakenBack`), and in memory an approved run has sent only
  one of two proposals with one id and different journals
  (`CloseRunTheorems.SharedIdLeavesAJournalUnsent`). When an approved run is complete is exact in
  `DraftActionsTheorems.ApprovalIsCompleteExactlyWhen` and
  `CloseRunTheorems.ApprovedIsCompleteExactlyWhen`.
- In memory an approval does not last: a later answer for one of the run's actions that is lost,
  or that is not the one the action expects, takes it back
  (`CloseRunTheorems.ApprovedTooEarlyAndTakenBack`). When a run stays approved is exact in
  `CloseRunTheorems.StaysApprovedExactlyWhen`.
- Queuing an action again clears its lease even while the row is running, and gives back no
  attempt: the row then stays running without a lease for good
  (`ReviewedRuns.SecondRequestOrphansTheFirst`), or ready without attempts until its run is
  cancelled (`ReviewedRuns.LastAttemptIsNotGivenBack`). When that happens, and when a queued action can be
  claimed, is exact in `QueuedActions.OrphanedExactlyWhen`,
  `QueuedActions.OutOfAttemptsExactlyWhen` and `QueuedActions.QueuedActionClaimableExactlyWhen`.
- A search that misses a draft the provider holds makes a second one
  (`DraftActionsTheorems.StaleSearchDuplicates`, exactly when in
  `DraftActionsTheorems.DraftsMultiplyExactlyWhen`).
- A Plaid batch names a record twice when a page removes it and a later page sends it again; the
  snapshot then fails and the run is blocked (`PlaidSyncTheorems.ReaddedIsNamedTwice`,
  `CloseRunTheorems.PlaidBatchFreezesExactlyWhen`, `CloseRunTheorems.ReaddedRecordBlocksTheRun`).
- A worker that dies between exchanging a refresh token and storing the new one makes the next
  worker present the used token (`TokenRotation.DyingBeforeStoreReusesToken`, exactly when in
  `TokenRotation.TokensAreReusedExactlyWhen`).

## Model

| member | source | states |
|---|---|---|
| Reconciliation.FindAggregate | backend/app/reconciliation.py:195-216 | the size-by-size loop returns the first group of the smallest size with a fitting group, and says whether it is the only one of that size |
| Reconciliation.MatchBank | backend/app/reconciliation.py:123-248 | one turn of the loop consumes, matches, reports and marks exactly what the verdict on that bank transaction says |
| Reconciliation.Reconcile | backend/app/reconciliation.py:108-263 | the whole pass, its two refusals and its closing sweep compute the specified run |
| Sequences.CombinationsComplete | backend/app/reconciliation.py:197-199 | every order-preserving selection of k elements is enumerated, and nothing else |
| Sequences.CombinationsDistinct | backend/app/reconciliation.py:197-199 | over distinct elements no selection is enumerated twice |
| GroupSearch.SearchMeaning | backend/app/reconciliation.py:195-216 | the answer of the subset search in terms of id sets: none fits in the size range, or one fits and no other of its size or smaller does, or two of the smallest size fit |
| GroupSearch.UnmatchedMeaning | backend/app/reconciliation.py:236-248 | a bank transaction is unmatched if and only if it is not set aside, has no candidate, and no group of an allowed size sums to its amount |
| GroupSearch.SingleMeaning | backend/app/reconciliation.py:147-173 | a ledger transaction is matched alone if and only if it is the only candidate |
| GroupSearch.GroupMeaning | backend/app/reconciliation.py:195-235 | a group is matched if and only if there is no candidate, it fits, and no other group of its size or smaller fits |
| GroupSearch.SeveralCandidatesMeaning | backend/app/reconciliation.py:175-187 | several candidates are reported if and only if two different ones exist |
| GroupSearch.SeveralGroupsMeaning | backend/app/reconciliation.py:203-218 | an ambiguous group is reported if and only if there is no candidate and the smallest fitting size has two groups |
| ReconciliationRuns.CompletedRun | backend/app/reconciliation.py:113-125 | a finished run had unique ids on both sides and consumed exactly the ledger ids of its matches |
| ReconciliationRuns.NothingMatchableIsLeft | backend/app/reconciliation.py:123-263 | at the end, a bank transaction reported unmatched has no candidate and no fitting group among the ledger transactions no match consumed |
| ReconciliationRuns.EveryMatchWasForced | backend/app/reconciliation.py:147-235 | given the matches listed before it, each match was the only possible choice, with the kind its amount and date demand |
| ReconciliationTotals.MoneyIsConserved | backend/app/reconciliation.py:123-263 | over any set of currencies, bank total minus ledger total equals bank-exception amounts minus unmatched-ledger amounts minus the fees on fee matches |
| ReconciliationStatuses.EveryTransactionOnce | backend/app/reconciliation.py:113-263 | each bank transaction leads exactly one match or one exception, each unconsumed ledger transaction leads exactly one exception, and each ledger transaction is in at most one match |
| ReconciliationStatuses.StatusesAreExact | backend/app/reconciliation.py:119-263 | every transaction and nothing else has a status; matched holds exactly for members of matches, excluded exactly for pending exceptions |
| ReconciliationStatuses.RefusedExactlyForRepeatedIds | backend/app/reconciliation.py:115-125 | with ids apart, the run is refused exactly for a repeated ledger id, or a repeated bank id |
| ReconciliationStatuses.LedgerReportedExactlyWhen | backend/app/reconciliation.py:250-262 | in any finished run a ledger transaction is reported if and only if no match consumed it and no bank transaction carries its id |
| ReconciliationStatuses.SharedIdHidesALedgerTransaction | backend/app/reconciliation.py:250-251 | a bank and a ledger transaction with one id: the ledger one is neither matched nor reported |
| ReconciliationStatuses.EvidenceIsExact | backend/app/reconciliation.py:100-101 | the evidence of a match or exception is that of its transactions, each id once |
| ReconciliationCodes.EveryExceptionIsExplained | backend/app/reconciliation.py:123-248 | given what the matches of the bank transactions before it consumed, the exception a bank transaction leads is pending if and only if it was set aside, a duplicate candidate if and only if it had several candidates, an ambiguous group if and only if it had none and the smallest fitting size had several groups, and unmatched if and only if it had neither; with its amount, currency, sources and evidence |
| ReconciliationCodes.OtherExceptionsAreLedgers | backend/app/reconciliation.py:250-262 | any other exception reports one ledger transaction that no match consumed, as it stands |
| ReconciliationCodes.MatchesAreDocumented | backend/app/reconciliation.py:147-235 | a match lists ledger transactions once each and keeps the evidence of all it joins |
| CloseControls.MappingByPlaidAccount | backend/app/close_execution.py:104-117 | the loop reads the rows into the mapping or refuses a blank or repeated account |
| CloseControls.BankTransactions | backend/app/close_execution.py:120-160 | the loop projects the live Plaid facts of the period, or refuses as specified |
| CloseControls.LedgerTransactions | backend/app/close_execution.py:163-213 | the loop projects the Xero cash facts of the period that are not voided and have a direction |
| CloseControls.DeriveCloseExecution | backend/app/close_execution.py:462-570 | the derivation with all its refusals computes the specified execution |
| CashControl.MappingMeaning | backend/app/close_execution.py:104-117 | the mapping is read if and only if no row has a blank and no account repeats; each account then has the code of its row |
| CashControl.CashAmountSign | backend/app/close_execution.py:216-234 | a signed amount exists exactly when a direction is known, keeps the size of the stated amount, and is positive exactly for an outflow, the transaction type deciding before the payment type |
| CashControl.BanksMeaning | backend/app/close_execution.py:120-160 | the projection is refused if and only if some live fact has an unmapped account or a negative fee in the period; otherwise it holds exactly the live facts of the period |
| CashControl.LedgersMeaning | backend/app/close_execution.py:163-213 | the ledger list holds exactly the signed cash facts of the period |
| CashControl.BanksConcat | backend/app/close_execution.py:120-160 | joining two lists of facts joins what they project to, so order and number are kept |
| CashControl.LedgersConcat | backend/app/close_execution.py:163-213 | the same on the ledger side |
| CashControl.OneEach | backend/app/close_execution.py:120-213 | one fact gives at most one transaction on either side |
| CashControl.DerivedIdsApart | backend/app/close_execution.py:150-204 | derived bank and ledger ids never coincide |
| CashControl.DifferenceExplained | backend/app/close_execution.py:353-373 | bank total minus ledger cash total equals exceptions minus fees plus what the ledger booked off the mapped cash accounts |
| CashControl.ControlPassesExactlyWhen | backend/app/close_execution.py:353-373 | the control passes if and only if the three reports exist, no open exception exceeds the threshold, and that explained difference is zero |
| CashControl.PassedNetsToFees | backend/app/close_execution.py:353-373 | with all ledger transactions on mapped cash codes, passed means the exceptions net exactly to the fees |
| Derivations.RefusedExactlyWhen | backend/app/close_execution.py:462-488 | a derivation is refused exactly for the first of: bad mapping rows, bad rules, a reversed period, the first Plaid fact with an unmapped account or a negative fee, a repeated transaction id |
| Derivations.DerivedParts | backend/app/close_execution.py:470-540 | what is derived is the run on the projected facts by the configured window, tolerance and group size (at least two, pending never allowed), with exactly the pending exceptions ignored where the policy excludes them, and the control unavailable if and only if a report is missing |
| Adjustments.ExceptionOrigin | backend/app/close_execution.py:489-527 | every exception of a run goes back to one bank or ledger transaction with its amount, and is open |
| Adjustments.CashCodeIsItsOwn | backend/app/close_execution.py:428-436 | an adjustment uses the cash code of the account the transaction was read from, as long as no other live record carries its id with another account |
| Adjustments.AdjustmentEffect | backend/app/close_execution.py:437-452 | the two lines balance, are valid, keep the evidence, and move exactly the bank amount between the two accounts, out of cash unless the offset is itself cash |
| Adjustments.ProposalExactlyWhen | backend/app/close_execution.py:410-459 | an exception gets a proposal if and only if it is an unmatched bank transaction with a non-zero amount and permitted offset and cash codes; it is then a valid journal of that transaction's date that moves exactly its amount between the offset and the transaction's own cash account |
| Adjustments.PostingSettles | backend/app/close_execution.py:565-569 | posting all proposals lowers the cash difference by exactly the covered amounts, and by nothing when the offset is a mapped cash code |
| Adjustments.ProposalsAreExact | backend/app/close_execution.py:514-569 | the proposals are those of the material adjustable exceptions, all sound, and no bank transaction has two |
| Adjustments.SoundProposalsReadBack | backend/app/domain.py:117-146 | any valid proposal with an ISO date, once sent and read back through signed amounts, matches what was approved |
| Journals.ValidLineExactlyWhen | backend/app/domain.py:124-130 | a journal line is accepted if and only if it has evidence, one positive side, and nothing on the other |
| Journals.ValidProposalExactlyWhen | backend/app/domain.py:140-146 | a proposal is accepted if and only if it has at least two lines, each valid, and they net to nothing |
| Reports.BuildTrialBalance | backend/app/reports.py:83-98 | the grouping loop, the sort and the validation compute the specified trial balance |
| Reports.GroupedMeaning | backend/app/reports.py:84-91 | there is one line per account code and name some entry has, holding exactly the sums and the evidence of those entries |
| Reports.SortMeaning | backend/app/reports.py:92-95 | the printed lines are the grouped ones, and no line comes after one with a greater code and name |
| Reports.TextLessMeaning | backend/app/reports.py:92-95 | one code or name comes before another if and only if it ends first, or has the smaller character where they first differ |
| Reports.BalancesExactlyWhen | backend/app/reports.py:83-98 | a trial balance is returned if and only if the entries' debits equal their credits, and has the same totals |
| Reports.CategoriesPartition | backend/app/reports.py:126-131 | the five category balances add up to debits minus credits |
| Reports.EquationCannotFail | backend/app/reports.py:114-143 | the accounting-equation error is unreachable; reports come out if and only if both entry sets balance and the cash ties |
| Reports.EntryExactlyWhen | backend/app/reports.py:26-32 | an accounting entry is accepted if and only if it has evidence, one positive side, and nothing on the other |
| Reports.ReportsAreExact | backend/app/reports.py:101-144 | which of the outcomes it is, that both trial balances hold every named account once and in order with its sums and evidence, and every category total by its debits and credits |
| Workflow.CloseRunWorkflow.constructor | backend/app/worker.py:81-88 | a workflow starts with no task, no event and no cancellation |
| Workflow.CloseRunWorkflow.AddTask | backend/app/worker.py:90-100 | refuses a known key or an undeclared dependency; otherwise adds, settles and logs as specified |
| Workflow.CloseRunWorkflow.RefreshReady | backend/app/worker.py:105-114 | the in-place pass computes the specified one |
| Workflow.CloseRunWorkflow.ExpireLeases | backend/app/worker.py:133-150 | every over-due lease is given back, retried, failed or cancelled, with its event |
| Workflow.CloseRunWorkflow.ClaimReady | backend/app/worker.py:116-131 | after expiry and settling, the first ready task in insertion order is leased to the worker |
| Workflow.CloseRunWorkflow.OwnedRunning | backend/app/worker.py:199-207 | which of the three refusals applies, or none |
| Workflow.CloseRunWorkflow.Heartbeat | backend/app/worker.py:152-157 | the owner's live lease is extended and logged; anyone else is refused without effect |
| Workflow.CloseRunWorkflow.Succeed | backend/app/worker.py:159-166 | the owner's task succeeds, or is cancelled in a cancelled workflow, and dependants settle |
| Workflow.CloseRunWorkflow.Fail | backend/app/worker.py:168-183 | the owner's task is retried, blocked, failed or cancelled by failure class, budget and cancellation |
| Workflow.CloseRunWorkflow.RequestCancel | backend/app/worker.py:185-192 | waiting tasks are cancelled and running ones asked to stop |
| Workflow.CloseRunWorkflow.ReplayEvents | backend/app/worker.py:194-197 | a page of the events after a cursor, or a refusal of bad arguments |
| Readiness.RefreshSettles | backend/app/worker.py:105-114 | one insertion-order pass reaches a fixpoint of the readiness rule |
| Readiness.RefreshUnique | backend/app/worker.py:105-114 | that fixpoint is the only one |
| Readiness.RefreshAbsorbs | backend/app/worker.py:105-131 | settling before a change of a leased task makes no difference to the settled result |
| WorkflowRuns.ApplyKeepsInv | backend/app/worker.py:90-192 | every command, refused or not, keeps: leases exactly on leased states, attempts within budget, started tasks with all dependencies succeeded, nothing ready or running once cancelled, cursors numbered, claims equal to attempts |
| WorkflowRuns.ReachableInv | backend/app/worker.py:81-207 | that invariant holds after any list of commands |
| WorkflowTheorems.EndsAreFinal | backend/app/worker.py:105-192 | succeeded, blocked, failed and cancelled tasks never change; a cancelled workflow stays so and nothing newly succeeds |
| WorkflowTheorems.FinalForever | backend/app/worker.py:105-192 | the same between any two points of any run |
| WorkflowTheorems.NoDeadlock | backend/app/worker.py:105-131 | in any reachable state with nothing ready or leased, every task has reached an end state |
| WorkflowTheorems.ClaimsAreBounded | backend/app/worker.py:116-150 | the claims of a run equal the sum of attempts and never exceed the sum of budgets |
| WorkflowTheorems.LogRebuildsState | backend/app/worker.py:90-192 | folding the event log over the declared tasks rebuilds every record, the order and the cancel flag |
| WorkflowTheorems.PagingIsComplete | backend/app/worker.py:194-197 | paging from the last cursor seen returns every later event once and in order |
| WorkflowEffects.OnlyTheHolderActs | backend/app/worker.py:152-207 | after any run a heartbeat, success or failure changes something if and only if it comes from the recorded owner of a running task, or one asked to stop, whose lease ends after the clock (a failure also needs a message) |
| WorkflowEffects.RefusedExactlyWhen | backend/app/worker.py:90-207 | each error comes out exactly in its own situation |
| WorkflowEffects.HeldTaskMovesExactlyWhen | backend/app/worker.py:116-192 | a leased task changes if and only if its holder acts, a claim finds its lease run out, or a cancellation asks it to stop |
| WorkflowEffects.HeartbeatEffect | backend/app/worker.py:152-157 | only the end of the lease moves, to the clock plus the lease duration, and one event is logged |
| WorkflowEffects.SuccessEffect | backend/app/worker.py:159-166 | the task ends as succeeded, or as cancelled in a cancelled workflow, without lease; every other record settles by the states of its dependencies |
| WorkflowEffects.FailureEffect | backend/app/worker.py:168-183 | when a failed task becomes ready, blocked, failed or cancelled, each if and only if, with the message kept and the lease gone |
| WorkflowEffects.AddEffect | backend/app/worker.py:90-114 | a declared task joins at the end with its budget unused, settled at once |
| WorkflowEffects.DeclaredTasksAreSound | backend/app/worker.py:46-52 | after any run every task has a name and a budget of at least one, and depends, on each once, only on tasks declared before it |
| WorkflowEffects.CancelEffect | backend/app/worker.py:185-192 | exactly the waiting tasks are cancelled and exactly the running ones asked to stop |
| WorkflowEffects.ClaimEffect | backend/app/worker.py:116-150 | exactly the leases that ran out end, as retried, failed or cancelled; readiness settles; the first ready task in declaration order is leased; one event each, in that order |
| DurableQueue.TaskStore.EnsureDefaultTasks | backend/app/supabase_db.py:2970-3022 | the chain of four default tasks is inserted where absent, the first one ready |
| DurableQueue.TaskStore.CreateCloseRun | backend/app/supabase_db.py:666-718 | a new run synchronizes with its default tasks; a known one keeps its state |
| DurableQueue.TaskStore.ClaimNextTask | backend/app/supabase_db.py:1704-1791 | exhausted leases are failed and their runs blocked, then the chosen eligible row is leased and its attempt counted |
| DurableQueue.TaskStore.RenewTaskLease | backend/app/supabase_db.py:1796-1814 | succeeds exactly for the worker that holds the live lease |
| DurableQueue.TaskStore.CompleteTask | backend/app/supabase_db.py:3024-3112 | accepted exactly from the live owner; promotes what became possible and opens the review when all is done |
| DurableQueue.TaskStore.BlockClaimedTask | backend/app/supabase_db.py:1816-1819 | accepted exactly from the live owner; blocks the row and its run |
| DurableQueue.TaskStore.RetryClaimedTask | backend/app/supabase_db.py:1821-1867 | accepted exactly from the live owner; ready again within budget, else failed with its run blocked |
| DurableQueue.TaskStore.RetryCloseRun | backend/app/supabase_db.py:1869-1917 | accepted exactly for a blocked or failed run; resets the rows whose prerequisite succeeded |
| DurableQueue.TaskStore.CancelCloseRun | backend/app/supabase_db.py:1919-1958 | accepted exactly for a known run that is not approved; cancels waiting rows |
| DurableQueueRuns.StepKeepsInv | backend/app/supabase_db.py:1704-1958 | every transaction keeps: attempts within budget, leases only on running rows and on every running default row, prerequisites of started rows succeeded, no waiting row whose prerequisite is done in an open run |
| DurableQueueRuns.ReachableInv | backend/app/supabase_db.py:1704-1958 | that holds after any interleaving of transactions |
| DurableQueueEffects.OthersChangeNothing | backend/app/supabase_db.py:1796-1867 | a renewal, completion, block or retry changes nothing unless its worker is recorded on a running row whose lease ends after the clock |
| DurableQueueEffects.RenewEffect | backend/app/supabase_db.py:1796-1814 | the live owner moves the end of its lease, for 1 to 900 seconds |
| DurableQueueEffects.RetryEffect | backend/app/supabase_db.py:1821-1867 | below the budget the row is ready and unleased with its attempt kept and the run untouched; at the budget it is failed and the run blocked unless approved or cancelled |
| DurableQueueEffects.BlockEffect | backend/app/supabase_db.py:3024-3071 | the row is blocked without lease, and the run blocked unless approved or cancelled |
| DurableQueueEffects.CompleteEffect | backend/app/supabase_db.py:3024-3112 | the row succeeds, exactly the waiting rows of an open run with nothing unfinished before them become ready, and a synchronizing run opens for review if and only if all its rows succeeded |
| DurableQueueEffects.ClaimEffect | backend/app/supabase_db.py:1704-1791 | exactly the running rows past their lease without attempts fail and block their runs, the chosen row is leased if and only if it is open, and nothing else changes |
| DurableQueueEffects.CreateEffect | backend/app/supabase_db.py:666-718 | exactly the missing default rows are added, only the first one ready |
| DurableQueueEffects.RetryRunEffect | backend/app/supabase_db.py:1869-1917 | exactly the blocked and failed rows with nothing unfinished before them start over, and the run synchronizes |
| DurableQueueEffects.CancelRunEffect | backend/app/supabase_db.py:1919-1958 | exactly the rows that have not started are cancelled with the run, unless it is approved |
| DurableQueueEffects.RequeueEffect | backend/app/supabase_db.py:2390-2468 | an action row is added ready, or loses its lease and is ready again if it had ended, attempts kept |
| DurableQueueEffects.RunChangeEffect | supabase/migrations/20260720213000_close_run_state_and_webhook_guards.sql:5-23 | final run states stay and only a blocked or failed run goes back to synchronizing |
| DurableQueueTheorems.RowAfterExact | backend/app/supabase_db.py:1704-3112 | the exact row that every transaction leaves, from the fields of the rows before it |
| DurableQueueTheorems.OnlyTheOwnerFinishes | backend/app/supabase_db.py:3024-3050 | a default task succeeds exactly when its unexpired owner completes it; a running one otherwise changes only through a claim made after its lease passed |
| DurableQueueTheorems.EndsAreFinal | supabase/migrations/20260720213000_close_run_state_and_webhook_guards.sql:5-23 | a succeeded default task never changes, approved and cancelled runs stay so, and in a cancelled run nothing starts running |
| DurableQueueTheorems.FinalForever | backend/app/supabase_db.py:1704-1958 | the same between any two points of any interleaving |
| DurableQueueTheorems.LateStepsVanish | backend/app/durable_worker.py:122-159 | whatever a worker still sends for a task it no longer owns changes nothing, over any continuation in which it does not claim it again |
| DurableQueueTheorems.ClaimsWithinBudget | backend/app/supabase_db.py:1704-1791 | between operator retries a row's attempt counts exactly its claims, which never exceed its budget |
| DurableQueueTheorems.FrontierIsOpen | backend/app/supabase_db.py:3072-3088 | in an open run the first unfinished task of the chain is never left waiting |
| DurableQueueTheorems.WorkIsAlwaysAvailable | backend/app/supabase_db.py:1704-1791 | and a claim can take it once its lease passed, or fails it and blocks the run |
| DurableQueueTheorems.RetryReopens | backend/app/supabase_db.py:1869-1917 | after an operator's retry of any blocked or failed run it synchronizes again and its first unfinished task is ready, running or succeeded |
| DurableQueueTheorems.RetriedRunCanBeWorked | backend/app/supabase_db.py:1869-1917 | and a claim made once that task's lease passed, if it has one, takes it, or fails it and blocks the run again |
| DurableQueueTheorems.LastTaskOpensReview | backend/app/supabase_db.py:3089-3111 | completing the last task opens the review when the queued actions are done |
| QueuedActions.QueuedActionClaimableExactlyWhen | backend/app/supabase_db.py:2116-2124 | an action that was just queued can be claimed if and only if its run is open, it was not running, and it has attempts left |
| QueuedActions.StepOrphansExactly | backend/app/supabase_db.py:1704-2124 | of all transactions only such a one takes the lease of a running row away |
| QueuedActions.OrphanedExactlyWhen | backend/app/supabase_db.py:2116-2124 | over any interleaving a row is running without a lease if and only if some transaction queued it again while it was running |
| QueuedActions.OrphansStayForever | backend/app/supabase_db.py:2453-2458 | and then no transaction ever moves that row |
| QueuedActions.StepExhaustsExactly | backend/app/supabase_db.py:2453-2458 | of all transactions only queuing an ended row at its budget makes a row ready without attempts |
| QueuedActions.OutOfAttemptsStays | backend/app/supabase_db.py:1704-1958 | no transaction claims or moves such a row, except that a cancellation of its run cancels it |
| QueuedActions.OutOfAttemptsExactlyWhen | backend/app/supabase_db.py:2453-2458 | over any interleaving an action is ready without attempts if and only if it was queued again at its budget and its run was not cancelled since |
| QueuedActions.QueuedWhileRunning | backend/app/supabase_db.py:2453-2458 | after any history, an action claimed and then queued again ends up running without a lease |
| QueuedActions.QueuedAtItsBudget | backend/app/supabase_db.py:2453-2458 | after any history, an action blocked at its last attempt and queued again ends up ready without attempts |
| ReviewedRuns.WorkedTo | backend/app/supabase_db.py:1704-1791 | the default tasks of a single run, claimed and completed one after the other, open the review, and no claim on the way has another row to take |
| ReviewedRuns.SecondRequestOrphansTheFirst | backend/app/supabase_db.py:2392-2458 | a run from its creation through its approval: a second recovery request while a worker holds the first leaves it running without a lease |
| ReviewedRuns.LastAttemptIsNotGivenBack | backend/app/supabase_db.py:2392-2458 | a run from its creation through its approval: a recovery request blocked at its last attempt and queued again is ready without attempts |
| DraftActions.EncodeRequest | backend/app/provider_runtime.py:363-367 | the request loop signs each line: debits positive, credits negative |
| DraftActions.DecodeResponse | backend/app/provider_runtime.py:349-354 | the response loop splits each signed amount into the two sides |
| DraftActions.XeroDraftActionExecutor.UpdateAction | backend/app/supabase_db.py:2288-2363 | an unknown action is refused; otherwise status and known journal id are recorded, every other action, run and journal stays; a failure or an unknown outcome sends an open run to recovery, the last success approves it, and nothing else moves a run |
| DraftActions.XeroDraftActionExecutor.CountUnfinished | backend/app/supabase_db.py:2337-2346 | none is counted exactly when every recorded action of the run has succeeded |
| DraftActions.XeroDraftActionExecutor.ExecuteProposal | backend/app/durable_worker.py:947-1006 | one execution, cut short at any point, against any behaviour of the provider's answers |
| DraftActions.XeroDraftActionExecutor.RecoverBySearch | backend/app/durable_worker.py:991-999 | the handler of a failed create or read-back |
| DraftActions.XeroDraftActionExecutor.ConcludeWith | backend/app/durable_worker.py:1000-1006 | succeeded exactly for a matching read-back, else failed |
| DraftActionsTheorems.LinesRoundTrip | backend/app/provider_runtime.py:340-367 | signing the amounts and reading them back gives the lines if and only if each line has one non-negative side and nothing on the other |
| DraftActionsTheorems.ReadBackMatchesExactly | backend/app/durable_worker.py:1008-1012 | a stored request reads back as approved if and only if its lines are one-sided and its date has at most ten characters |
| DraftActionsTheorems.ExecuteKeeps | backend/app/durable_worker.py:947-1006 | one execution, however it is cut short and answered, keeps at most one draft per key, true successes and justified failures |
| DraftActionsTheorems.ExecuteCreates | backend/app/durable_worker.py:954-990 | one execution creates at most one journal, exactly when it is permitted and unfinished, lives that far, finds nothing and its request takes effect |
| DraftActionsTheorems.DraftsUsePermittedCodes | backend/app/durable_worker.py:962-964 | over any history no draft of the engine touches an account outside the frozen mappings |
| DraftActionsTheorems.AtMostOneDraft | backend/app/durable_worker.py:947-1006 | after any number of crashed, repeated and foreign steps there is at most one draft per run and proposal; succeeded names it and it reads back as approved; failed only if no read-back could match |
| DraftActionsTheorems.SucceededIsFinal | backend/app/durable_worker.py:975-976 | a finished action is left alone |
| DraftActionsTheorems.RetryRecovers | backend/app/durable_worker.py:947-1006 | from any such history one undisturbed execution ends with exactly one draft, recorded as succeeded |
| DraftOutcomes.FoundMeaning | backend/app/durable_worker.py:980-990 | a search shows nothing, one journal or several exactly as none, one or several carry the marker |
| DraftOutcomes.MatchesExactly | backend/app/durable_worker.py:1008-1012 | a read-back matches if and only if the journal is a draft with the approved narration, date and lines, amount by amount |
| DraftOutcomes.LivingWorkerEnds | backend/app/durable_worker.py:976-1006 | a permitted, unfinished execution of a living worker succeeds with, or fails by, the journal it gets to see, fails if its first search shows several, and is unknown otherwise; what it sees is the one found and read back or found again, the one created and read back, or the only one the second search shows |
| DraftOutcomes.OtherEnds | backend/app/durable_worker.py:947-1006 | when an execution is rejected, already done or cut short, each if and only if, and what it then leaves |
| DraftOutcomes.RecoversExactlyWhen | backend/app/durable_worker.py:976-1006 | after any history of crashed, retried and repeated executions, one more by a living worker ends succeeded with the only draft if and only if it had succeeded before, or the content can be read back and the answers are enough to see the draft |
| DraftActionsTheorems.StaleSearchCreates | backend/app/durable_worker.py:980-990 | a search that misses what the provider holds adds a draft to those there are |
| DraftActionsTheorems.StaleSearchDuplicates | backend/app/durable_worker.py:980-990 | a lost answer and then such a search leave two drafts for one proposal |
| DraftActionsTheorems.DraftsMultiplyExactlyWhen | backend/app/durable_worker.py:980-990 | over any history, whatever the searches answer, a proposal has more than one draft if and only if some execution created one while missing one that was there, and its search was stale |
| DraftActionsTheorems.ApprovalIsCompleteExactlyWhen | backend/app/supabase_db.py:2337-2354 | when a success approves the run, all approved proposals are carried out if and only if all had been recorded as actions |
| DraftActionsTheorems.ApprovedTooEarly | backend/app/durable_worker.py:938-941 | executing the first of two approved proposals approves the run with the second untouched |
| PlaidSync.PlaidIngestionAdapter.ReadBatch | backend/app/providers.py:193-280 | succeeds if and only if some allowed number of pages forms a complete sync, then holds exactly what those pages stage; any failure leaves cursor and records as they were |
| PlaidSync.PlaidIngestionAdapter.ReadPage | backend/app/providers.py:203-241 | checks and stages one page |
| PlaidSync.PlaidIngestionAdapter.StageUpserts | backend/app/providers.py:219-224 | stages a page's upserts, or refuses a missing or repeated id |
| PlaidSync.PlaidIngestionAdapter.StageRemovals | backend/app/providers.py:225-241 | stages removals with their tombstones, or refuses an empty or repeated id or an unknown account |
| PlaidSync.EndsOnce | backend/app/providers.py:246-279 | at most one number of pages can end a sync |
| PlaidSyncTheorems.RemovalsMeaning | backend/app/providers.py:225-241 | a page's removals are accepted if and only if the ids are non-empty, not repeated here or before, and each account is known; the result is one set difference and one tombstone each |
| PlaidSyncTheorems.StageMeaning | backend/app/providers.py:193-241 | staging succeeds exactly for pages that chain by cursor, fit the environment, repeat no request, upsert or removal id, and own their removals; it then holds the plain fold |
| PlaidSyncTheorems.SyncCommitsExactly | backend/app/providers.py:193-280 | a sync commits exactly for such pages that normalise and end with a cursor, and commits the fold of the pages and the last cursor |
| PlaidSyncTheorems.PageIdsOnceMeaning | backend/app/providers.py:219-224 | a page's transactions are accepted if and only if every added or modified one has an id and no two share one |
| PlaidSyncTheorems.HeldExactlyAsSent | backend/app/providers.py:193-280 | after a sync a transaction is held if and only if the last page to send its id sent it so and neither that page nor a later one removed it, or no page names the id and it was held before |
| PlaidSyncTheorems.SyncsStayKeyed | backend/app/providers.py:219-224 | every record stays held under its own id |
| PlaidSyncTheorems.PageLimitIsExact | backend/app/providers.py:200-280 | a complete sync of n pages goes through if and only if at least n pages are allowed |
| PlaidSyncTheorems.TwoSyncsAreOneFold | backend/app/providers.py:193-280 | two successful syncs in a row leave one fold over the concatenated pages |
| PlaidSyncTheorems.HeldExactlyWhenRewritten | backend/app/providers.py:219-241 | a removed id is still held if and only if a later page writes it |
| PlaidSyncTheorems.BatchNamesOnceExactlyWhen | backend/app/providers.py:246-260 | a batch names every record once if and only if no page writes an id that an earlier page removed |
| PlaidSyncTheorems.ReaddedIsNamedTwice | backend/app/providers.py:246-260 | removing a known transaction and sending it again is accepted and names it twice |
| CloseRuns.CloseRun.Begin | backend/app/domain.py:195-196 | synchronizing starts only from created or blocked |
| CloseRuns.CloseRun.Build | backend/app/domain.py:198-237 | a snapshot is frozen exactly while synchronizing from valid batches that name no version and no provider record twice; otherwise nothing changes |
| CloseRuns.CloseRun.AddRecords | backend/app/domain.py:207-228 | the inner loop with its two seen-sets accepts a batch exactly when all records stay apart |
| CloseRuns.CloseRun.SynchronizeSources | backend/app/ingestion.py:22-35 | a failed read or freeze leaves the run blocked |
| CloseRuns.CloseRun.Prepare | backend/app/domain.py:239-249 | freezes the package over the snapshot and the proposals |
| CloseRuns.CloseRun.ApprovePackage | backend/app/domain.py:251-260 | only the controller, only the frozen package, and only while awaiting approval |
| CloseRuns.CloseRun.PrepareXeroAction | backend/app/domain.py:262-278 | only an approved proposal gets an action, and at most one per proposal id |
| CloseRuns.CloseRun.ReconcileXeroAction | backend/app/domain.py:280-302 | records a lost, wrong or right answer and moves the run accordingly |
| CloseRunTheorems.ReachableInv | backend/app/domain.py:195-307 | after any commands: frozen states have a sound snapshot and the package over it, actions stand for approved proposals one each, a succeeded action names its journal, approved means every recorded action succeeded |
| CloseRunEffects.BuildableExactlyWhen | backend/app/domain.py:198-228 | batches can be frozen if and only if there are some, each is complete, without warnings and of an allowed environment, and no version and no provider record comes twice |
| CloseRunEffects.SnapshotFreezes | backend/app/domain.py:198-237 | the snapshot holds every batch id and, at its place, every record of every batch under that batch |
| CloseRunEffects.StateMovesExactly | backend/app/domain.py:195-302 | for every state, exactly which command takes a run into it and when |
| CloseRunEffects.LeftCreatedExactlyWhen | backend/app/domain.py:190-196 | a run has left its first state if and only if some command began a synchronisation |
| CloseRunEffects.CommandChanges | backend/app/domain.py:195-302 | exactly which command changes snapshot, package, proposals, approver and actions, and to what |
| CloseRunTheorems.PackageIsFrozen | backend/app/domain.py:239-302 | from review on, snapshot, package and proposals never change and an approved run never returns to review |
| CloseRunTheorems.ActingRunIsBacked | backend/app/domain.py:251-302 | a run in application, failed or approved was approved by the controller on exactly its snapshot and proposals, drawn from complete batches of its environment |
| CloseRunTheorems.RefusedApprovalChangesNothing | backend/app/domain.py:251-260 | in any reachable run an approval changes something if and only if it is the controller's, of the frozen package, while awaiting approval |
| CloseRunTheorems.ApprovedIsCompleteExactlyWhen | backend/app/domain.py:262-302 | an approved run carried out every proposal's journal if and only if every proposal had been prepared and no id stands for two journals |
| CloseRunTheorems.ApprovedAfterPreparingAll | backend/app/domain.py:262-302 | when all actions are prepared before the first read-back, an approved run carried everything out if and only if no id stands for two journals |
| CloseRunTheorems.ApprovalEndsExactlyWhen | backend/app/domain.py:280-302 | an approved run leaves that state if and only if an answer for one of its actions is lost or not the expected one |
| CloseRunTheorems.StaysApprovedExactlyWhen | backend/app/domain.py:280-302 | from an approved point of any run on, every later state is approved if and only if no later command is such an answer |
| CloseRunTheorems.ApprovedTooEarlyAndTakenBack | backend/app/domain.py:280-302 | a run from its creation: one of two proposals approves it, and a later lost answer, or any wrong one, takes that back |
| CloseRunTheorems.SharedIdLeavesAJournalUnsent | backend/app/domain.py:267-269 | a run from its creation: two journals under one id, both prepared first, and the approved run never sent the second |
| CloseRunTheorems.PlaidBatchFreezesExactlyWhen | backend/app/domain.py:207-219 | beside any valid batches of other providers that name nothing twice, a sync's batch can be frozen if and only if it names every record once |
| CloseRunTheorems.ReaddedRecordBlocksTheRun | backend/app/ingestion.py:22-35 | a synchronisation that read both sources freezes them if the Plaid batch names every record once, and if not leaves the run blocked, from where it can be started again |
| ConnectionPool.BoundedPool.TryAcquire | backend/app/supabase_db.py:287-303 | one pass under the lock drops unusable idle connections, lends, reserves or finds the pool full |
| ConnectionPool.BoundedPool.FinishOpening | backend/app/supabase_db.py:304-305 | an opened connection is lent |
| ConnectionPool.BoundedPool.AbandonOpening | backend/app/supabase_db.py:306-310 | a failed open gives its reservation back |
| ConnectionPool.BoundedPool.CloseBorrow | backend/app/supabase_db.py:245-248 | the first close sends the connection back, later ones do nothing |
| ConnectionPool.BoundedPool.ReleaseConnection | backend/app/supabase_db.py:312-319 | a usable connection becomes idle, an unusable one is forgotten |
| ConnectionPool.StepKeepsInv | backend/app/supabase_db.py:228-319 | every step keeps idle + lent + returning + being opened equal to created, within the bound, and each connection in one place |
| ConnectionPool.EveryRunKeepsInv | backend/app/supabase_db.py:228-319 | so does any interleaving |
| ConnectionPool.NeverLentTwice | backend/app/supabase_db.py:228-319 | no connection has two borrowers or is idle while lent |
| ConnectionPool.FullMeansAllInUse | backend/app/supabase_db.py:297-303 | a thread waits or is turned away only while the allowed number is in use |
| ConnectionPool.ClosedOnce | backend/app/supabase_db.py:245-248 | once closed a borrow stays closed, and closing it again gives nothing back |
| ConnectionPool.EnterEffect | backend/app/supabase_db.py:287-303 | the last usable idle connection is lent and the unusable ones after it forgotten; without one a new one may be opened if and only if fewer than allowed remain |
| ConnectionPool.OpenEffect | backend/app/supabase_db.py:304-310 | an opened connection is lent, a failed open gives its count back |
| ConnectionPool.ReleaseEffect | backend/app/supabase_db.py:312-319 | in any reachable pool a sound connection given back is idle and lent next, an unsound one is nowhere any more, and no other one moves |
| ConnectionPool.CloseEffect | backend/app/supabase_db.py:245-248 | closing a live borrow puts its connection on the way back, once |
| WebhookKeys.PlaidWebhookVerifier.LookUp | backend/app/plaid_webhooks.py:83-105 | which of cached, refused, waiting, limited or fetching a caller gets, and the new caches and window |
| WebhookKeys.PlaidWebhookVerifier.KeepKey | backend/app/plaid_webhooks.py:124-125 | a key is cached for its lifetime |
| WebhookKeys.PlaidWebhookVerifier.KeepRefusal | backend/app/plaid_webhooks.py:116-119 | a refused key id is remembered for at most a minute |
| WebhookKeys.PlaidWebhookVerifier.Finish | backend/app/plaid_webhooks.py:127-131 | the key id is no longer in flight |
| WebhookKeys.ReachableInv | backend/app/plaid_webhooks.py:80-131 | the kept times are the recent end of the whole history, whatever the interleaving |
| WebhookKeys.FetchesAreLimited | backend/app/plaid_webhooks.py:93-102 | any minute of the whole history holds at most the allowed number of fetches |
| WebhookKeys.OneFetchPerKey | backend/app/plaid_webhooks.py:95-131 | at most one fetch per key id is open, and exactly when it is marked in flight |
| WebhookKeys.CachedKeyServes | backend/app/plaid_webhooks.py:84-89 | over any interleaving a cached key is served, and not fetched again, until it expires |
| WebhookKeys.RefusalHolds | backend/app/plaid_webhooks.py:90-92 | and a refused key id is refused without a fetch until the refusal lapses |
| WebhookKeys.AnsweredExactlyWhen | backend/app/plaid_webhooks.py:83-105 | after any interleaving: when a caller gets the key, the refusal, a wait, the limit or a fetch, each if and only if; a fetch is allowed exactly when the last minute of the whole history held fewer than the limit |
| WebhookKeys.StepEffect | backend/app/plaid_webhooks.py:83-131 | a lookup forgets only what lapsed and starts a fetch exactly when it answers so; the other steps set or clear one entry |
| TokenRotation.XeroOAuthClient.Refresh | backend/app/xero_oauth.py:249-263 | under the lock the stored token is presented, the new one stored and cached, or else the cell is left as it was |
| TokenRotation.XeroOAuthClient.NeedsRefresh | backend/app/xero_oauth.py:265-275 | the cached token serves strictly until the skew before its expiry |
| TokenRotation.StepKeepsInv | backend/app/secrets_store.py:99-160 | every step, deaths included, keeps: one worker inside the lock, and a cell that holds the last issued, never presented token, or a presented one from a death after an exchange until the next store or login |
| TokenRotation.TradePresents | backend/app/xero_oauth.py:257-260 | an exchange presents a used token exactly when the cell is spent in that sense, and the last issued one exactly when it is not |
| TokenRotation.TokensAreReusedExactlyWhen | backend/app/xero_oauth.py:249-263 | over any interleaving with new tokens and deaths anywhere, no token is presented twice, and each exchange presents the token issued just before it, if and only if no worker exchanges after such a death and before the next store or login |
| TokenRotation.TokensAreUsedOnce | backend/app/xero_oauth.py:249-263 | in particular when every exchange is followed by its store, as section 6 of RFC 6749 has clients replace rotated tokens |
| TokenRotation.DyingBeforeStoreReusesToken | backend/app/xero_oauth.py:260-261 | one worker dying between exchange and store, and the next one presents the used token |

## Left out

- Exception, match, snapshot and action ids, descriptions and remediation texts: generated or display values no branch looks at.
- Text trimming, JSON canonicalisation, dates, time zones and the guessing of provider fields: the models take projected facts; `CashAmount` takes what the type texts say about direction as given.
- Manual-journal lines, their metadata warnings and the supplementary control totals of the report: they never change the control status.
- The input, report and result hashes, and the facts offered for explanation of an exception: plain copies of their inputs.
- The order of the `statuses` tuple, which follows the insertion order of a dictionary.
- The message text of `last_error` beyond which branch set it.
- Workflow.CloseRunWorkflow.ClaimReady: returns the record as a value; the original hands out the live object, so later changes through that alias are not modelled.
- The check that a blocked or retried queue task carries an error text: it refuses the call and touches no row.
- SQL text, row locking and which eligible row a claim's query prefers: the chosen row is a parameter of the step.
- `process_once` and the heartbeat thread of a worker: their effects are the interleaved claim, renewal, completion, block and retry steps of the queue.
- Waking of waiting threads: the pool's and the key cache's waits are repeated entries, and no liveness of a waiter is claimed.
- ConnectionPool.BoundedPool.CloseBorrow: one thread at a time closes a given borrow.
- TokenRotation.XeroOAuthClient.Refresh: a nested use of the lock by the thread that holds it is not modelled.
- TokenRotation.StepKeepsInv: storing the token of a new login is one step, possible only while no refresh holds the lock, as the transaction lock in the store has it.
- DraftActions.XeroDraftActionExecutor.ExecuteProposal: two executors working on one proposal at the same time, and a create request that takes effect after its failure was handled, are outside the model.
- `XeroPolicyGateway` of `backend/app/actions.py`: the same search, create and read-back steps on in-memory dictionaries, with one action per approval instead of per run.
- `XeroIngestionAdapter`: numbered pages with one duplicate check; it would add only easy members.
- Persistence of reconciliations, review packages and manifests, the Gmail and evidence executors, B2 storage, explanations, the market release gates and the demo scenario: branch-by-branch facts.
- HTTP transports, API routes, the user interface, OAuth URLs and cryptography: plumbing, or taken as injective.
