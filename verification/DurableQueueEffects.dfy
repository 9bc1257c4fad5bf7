/** What each queue transaction does to the rows and to the run states, told by their fields alone. */
module DurableQueueEffects {
  import opened Names
  import opened DurableQueue
  import DurableQueueRuns

  // ---- the plain readings -----------------------------------------------------------------------

  /** The worker recorded on a running row, before its lease ends. */
  predicate LiveOwner(db: Db, id: TaskId, worker: Name, now: int) {
    && id in db.tasks && db.tasks[id].state == RunningRow && db.tasks[id].owner == Some(worker)
    && db.tasks[id].expires.Some? && db.tasks[id].expires.value > now
  }

  predicate Lapsed(r: Row, now: int) {
    r.expires.Some? && r.expires.value < now
  }

  predicate Final(s: RunState) { s == ApprovedRun || s == CancelledRun }

  predicate Precedes(a: TaskKey, b: TaskKey) {
    || (a == Preflight && b == SynchronizeSources)
    || (a == SynchronizeSources && b == CollectEvidence)
    || (a == CollectEvidence && b == ReconcileTask)
  }

  predicate NothingBefore(tasks: Rows, id: TaskId) {
    forall key :: Precedes(key, id.key) && TaskId(id.run, key) in tasks ==> tasks[TaskId(id.run, key)].state == SucceededRow
  }

  lemma NothingBeforeMeaning(tasks: Rows, id: TaskId)
    ensures PrerequisiteMet(tasks, id) <==> NothingBefore(tasks, id)
  {
    if Prerequisite(id.key).Some? { assert Precedes(Prerequisite(id.key).value, id.key); }
  }

  /** The run of a task that failed or was blocked: blocked as well, unless approved or cancelled. */
  ghost predicate RunBlocked(db: Db, v: Db, run: Name) {
    && v.runs.Keys == db.runs.Keys
    && (forall other :: other in db.runs && other != run ==> v.runs[other] == db.runs[other])
    && (run in db.runs ==> v.runs[run] == if Final(db.runs[run]) then db.runs[run] else BlockedRun)
  }

  // ---- the owner of a lease -----------------------------------------------------------------------

  predicate NeedsOwner(s: Step) { s.Renew? || s.Complete? || s.BlockTask? || s.RetryTask? }

  /** A renewal, completion, block or retry not sent by the live owner changes nothing. */
  lemma OthersChangeNothing(db: Db, s: Step)
    requires NeedsOwner(s) && !LiveOwner(db, s.id, s.worker, s.now)
    ensures Apply(db, s) == db
  {
    hide Promote, AllSucceededIn;
  }

  /** A renewal moves the end of the lease, if the lease asked for is between 1 and 900 seconds. */
  lemma RenewEffect(db: Db, id: TaskId, worker: Name, leaseSeconds: int, now: int)
    requires LiveOwner(db, id, worker, now)
    ensures Apply(db, Renew(id, worker, leaseSeconds, now))
         == if worker.text != "" && 1 <= leaseSeconds <= 900
            then Db(db.tasks[id := db.tasks[id].(expires := Some(now + leaseSeconds))], db.runs) else db
  {
  }

  /** A retry below the budget gives the row back, ready and unleased, and leaves the run alone;
      at the budget it fails the row and blocks the run. */
  lemma RetryEffect(db: Db, id: TaskId, worker: Name, now: int)
    requires LiveOwner(db, id, worker, now)
    ensures var r, v := db.tasks[id], Apply(db, RetryTask(id, worker, now));
            && (r.attempt < r.maxAttempts ==>
                  v == Db(db.tasks[id := Row(ReadyRow, r.attempt, r.maxAttempts, None, None)], db.runs))
            && (r.attempt >= r.maxAttempts ==>
                  v.tasks == db.tasks[id := Row(FailedRow, r.attempt, r.maxAttempts, None, None)] && RunBlocked(db, v, id.run))
  {
  }

  /** A block ends the row's lease, and blocks the run. */
  lemma BlockEffect(db: Db, id: TaskId, worker: Name, now: int)
    requires LiveOwner(db, id, worker, now)
    ensures var r, v := db.tasks[id], Apply(db, BlockTask(id, worker, now));
            v.tasks == db.tasks[id := Row(BlockedRow, r.attempt, r.maxAttempts, None, None)] && RunBlocked(db, v, id.run)
  {
  }

  /** The row of `other` after `id` completed. */
  ghost predicate AfterCompletion(db: Db, v: Db, id: TaskId, other: TaskId)
    requires other in db.tasks && other in v.tasks
  {
    var r := db.tasks[other];
    var freed := other.run == id.run && r.state == PendingRow && id.run in db.runs && db.runs[id.run] != CancelledRun
                 && NothingBefore(v.tasks, other);
    && (other == id ==> v.tasks[other] == Row(SucceededRow, r.attempt, r.maxAttempts, None, None))
    && (other != id && freed ==> v.tasks[other] == Row(ReadyRow, r.attempt, r.maxAttempts, r.owner, r.expires))
    && (other != id && !freed ==> v.tasks[other] == r)
  }

  lemma PromotedAs(tasks: Rows, run: Name)
    ensures Promote(tasks, run).Keys == tasks.Keys
    ensures forall id :: id in tasks ==> Promote(tasks, run)[id] == PromoteRow(tasks, id, run)
    ensures forall id :: id in tasks ==> (Promote(tasks, run)[id].state.SucceededRow? <==> tasks[id].state.SucceededRow?)
  {
    hide PrerequisiteMet;
  }

  lemma SameBefore(a: Rows, b: Rows, id: TaskId)
    requires a.Keys == b.Keys && forall other :: other in a ==> (a[other].state.SucceededRow? <==> b[other].state.SucceededRow?)
    ensures NothingBefore(a, id) <==> NothingBefore(b, id)
  {
    assert forall other :: other in a <==> other in a.Keys;
  }

  lemma CompleteUnfold(db: Db, id: TaskId, worker: Name, now: int)
    requires LiveOwner(db, id, worker, now)
    ensures var r, v := db.tasks[id], Apply(db, Complete(id, worker, now));
            var done := db.tasks[id := Row(SucceededRow, r.attempt, r.maxAttempts, None, None)];
            && v.tasks == (if id.run in db.runs && db.runs[id.run] != CancelledRun then Promote(done, id.run) else done)
            && v.runs == (if AllSucceededIn(v.tasks, id.run) && id.run in db.runs && db.runs[id.run] == Synchronizing
                          then db.runs[id.run := ReviewReady] else db.runs)
  {
    hide Promote, AllSucceededIn;
  }

  /** A completion ends the row, makes ready what waited for it, and opens the review of a run
      that was synchronizing exactly when all its rows have succeeded. */
  lemma CompleteEffect(db: Db, id: TaskId, worker: Name, now: int)
    requires LiveOwner(db, id, worker, now)
    ensures var v := Apply(db, Complete(id, worker, now));
            && v.tasks.Keys == db.tasks.Keys && (forall other :: other in db.tasks ==> other in v.tasks && AfterCompletion(db, v, id, other))
            && v.runs.Keys == db.runs.Keys
            && forall run :: run in db.runs ==>
                 v.runs[run] == if run == id.run && db.runs[run] == Synchronizing
                                   && (forall other :: other in v.tasks && other.run == run ==> v.tasks[other].state == SucceededRow)
                                then ReviewReady else db.runs[run]
  {
    hide Apply, Promote, NothingBefore, PrerequisiteMet;
    CompleteUnfold(db, id, worker, now);
    var r, v := db.tasks[id], Apply(db, Complete(id, worker, now));
    var done := db.tasks[id := Row(SucceededRow, r.attempt, r.maxAttempts, None, None)];
    PromotedAs(done, id.run);
    assert done.Keys == db.tasks.Keys;
    assert v.tasks.Keys == db.tasks.Keys;
    forall other | other in db.tasks ensures other in v.tasks && AfterCompletion(db, v, id, other) {
      NothingBeforeMeaning(done, other);
      SameBefore(done, v.tasks, other);
    }
  }

  // ---- claiming -----------------------------------------------------------------------------------

  /** Running past its lease with no attempt left. */
  predicate UsedUp(r: Row, now: int) {
    r.state == RunningRow && Lapsed(r, now) && r.attempt >= r.maxAttempts
  }

  /** A row that a claim may lease. */
  predicate Open(db: Db, id: TaskId, now: int) {
    && id in db.tasks && id.run in db.runs && db.runs[id.run] != CancelledRun
    && db.tasks[id].attempt < db.tasks[id].maxAttempts
    && (|| (db.tasks[id].state == ReadyRow && (db.tasks[id].expires == None || Lapsed(db.tasks[id], now)))
        || (db.tasks[id].state == RunningRow && Lapsed(db.tasks[id], now)))
  }

  ghost predicate AfterClaim(db: Db, v: Db, c: Step, id: TaskId)
    requires c.Claim? && id in db.tasks && id in v.tasks
  {
    var r := db.tasks[id];
    && (UsedUp(r, c.now) ==> v.tasks[id] == Row(FailedRow, r.attempt, r.maxAttempts, None, None))
    && (c.chosen == Some(id) && Open(db, id, c.now) ==>
          v.tasks[id] == Row(RunningRow, r.attempt + 1, r.maxAttempts, Some(c.worker), Some(c.now + c.leaseSeconds)))
    && (!UsedUp(r, c.now) && !(c.chosen == Some(id) && Open(db, id, c.now)) ==> v.tasks[id] == r)
  }

  lemma SweptAs(db: Db, now: int)
    ensures var v := Swept(db, now);
            && v.tasks.Keys == db.tasks.Keys && v.runs.Keys == db.runs.Keys
            && (forall id :: id in db.tasks ==>
                  v.tasks[id] == (var r := db.tasks[id];
                                  if UsedUp(r, now) then Row(FailedRow, r.attempt, r.maxAttempts, None, None) else r))
            && (forall run :: run in db.runs ==> v.runs[run] == if RunExhausted(db.tasks, run, now) then Block(db.runs[run]) else db.runs[run])
  {
    hide RunExhausted;
  }

  lemma OpenSwept(db: Db, id: TaskId, now: int)
    ensures Eligible(Swept(db, now), id, now) <==> Open(db, id, now)
  {
    hide Swept, RunExhausted;
    SweptAs(db, now);
    assert id in Swept(db, now).tasks <==> id in Swept(db, now).tasks.Keys;
    assert id.run in Swept(db, now).runs <==> id.run in Swept(db, now).runs.Keys;
  }

  lemma ClaimUnfold(db: Db, c: Step)
    requires c.Claim? && c.worker.text != "" && 1 <= c.leaseSeconds <= 900
    ensures var s := Swept(db, c.now);
            && (c.chosen.Some? && Eligible(s, c.chosen.value, c.now) ==>
                  var id := c.chosen.value;
                  Apply(db, c) == Db(s.tasks[id := Row(RunningRow, s.tasks[id].attempt + 1, s.tasks[id].maxAttempts, Some(c.worker),
                                                       Some(c.now + c.leaseSeconds))], s.runs))
            && (!(c.chosen.Some? && Eligible(s, c.chosen.value, c.now)) ==> Apply(db, c) == s)
  {
    hide Swept;
  }

  /** A claim fails every row that is used up, blocks its run, and leases the row the query chose,
      if that one is open; nothing else changes. A claim without a worker or with a lease outside
      1 to 900 seconds changes nothing. */
  lemma ClaimEffect(db: Db, c: Step)
    requires c.Claim?
    ensures var v := Apply(db, c);
            if c.worker.text == "" || c.leaseSeconds < 1 || c.leaseSeconds > 900 then v == db
            else
              && v.tasks.Keys == db.tasks.Keys && (forall id :: id in db.tasks ==> id in v.tasks && AfterClaim(db, v, c, id))
              && v.runs.Keys == db.runs.Keys
              && forall run :: run in db.runs ==>
                   v.runs[run] == if !Final(db.runs[run]) && (exists id :: id in db.tasks && id.run == run && UsedUp(db.tasks[id], c.now))
                                  then BlockedRun else db.runs[run]
  {
    if c.worker.text != "" && 1 <= c.leaseSeconds <= 900 {
      hide Swept, Apply, Eligible, Open;
      ClaimUnfold(db, c);
      SweptAs(db, c.now);
      if c.chosen.Some? { OpenSwept(db, c.chosen.value, c.now); OpenKnown(db, c.chosen.value, c.now); }
    }
  }

  lemma OpenKnown(db: Db, id: TaskId, now: int)
    ensures Open(db, id, now) ==> id in db.tasks && !UsedUp(db.tasks[id], now)
  {
  }

  // ---- runs -----------------------------------------------------------------------------------------

  /** A new run synchronizes; its four default rows are added where absent, only preflight ready. */
  lemma CreateEffect(db: Db, run: Name, id: TaskId)
    ensures var v := Apply(db, CreateRun(run));
            && v.runs == (if run in db.runs then db.runs else db.runs[run := Synchronizing])
            && (id in v.tasks <==> id in db.tasks || (id.run == run && id.key !in {ApplyApprovedActions, SendRecoveryRequest}))
            && (id in db.tasks ==> v.tasks[id] == db.tasks[id])
            && (id in v.tasks && id !in db.tasks ==>
                  v.tasks[id] == Row(if id.key == Preflight then ReadyRow else PendingRow, 0, 3, None, None))
  {
    hide InsertDefaults;
    DurableQueueRuns.InsertsExactly(db.tasks, run, id);
  }

  /** Retrying a blocked or failed run resets its blocked and failed rows, except those still waiting. */
  lemma RetryRunEffect(db: Db, run: Name)
    ensures var v := Apply(db, RetryRun(run));
            if run in db.runs && db.runs[run] in {BlockedRun, FailedRun} then
              && v.runs == db.runs[run := Synchronizing] && v.tasks.Keys == db.tasks.Keys
              && forall id :: id in db.tasks ==>
                   var r := db.tasks[id];
                   v.tasks[id] == if id.run == run && r.state in {BlockedRow, FailedRow} && NothingBefore(db.tasks, id)
                                  then Row(ReadyRow, 0, r.maxAttempts, None, None) else r
            else v == db
  {
    hide PrerequisiteMet, NothingBefore;
    forall id ensures PrerequisiteMet(db.tasks, id) <==> NothingBefore(db.tasks, id) { NothingBeforeMeaning(db.tasks, id); }
  }

  /** Cancelling any run but an approved one cancels its rows that have not started. */
  lemma CancelRunEffect(db: Db, run: Name)
    ensures var v := Apply(db, CancelRun(run));
            if run in db.runs && db.runs[run] != ApprovedRun then
              && v.runs == db.runs[run := CancelledRun] && v.tasks.Keys == db.tasks.Keys
              && forall id :: id in db.tasks ==>
                   var r := db.tasks[id];
                   v.tasks[id] == if id.run == run && r.state in {PendingRow, ReadyRow}
                                  then Row(CancelledRow, r.attempt, r.maxAttempts, None, None) else r
            else v == db
  {
  }

  /** Queuing an action adds a ready row, or makes an ended one ready and drops its lease, attempts kept. */
  lemma RequeueEffect(db: Db, run: Name, key: TaskKey)
    ensures var v, id := Apply(db, Requeue(run, key)), TaskId(run, key);
            if run in db.runs && key in {ApplyApprovedActions, SendRecoveryRequest} then
              && v.runs == db.runs
              && v.tasks == db.tasks[id := if id !in db.tasks then Row(ReadyRow, 0, 3, None, None)
                                           else Row(if db.tasks[id].state in {SucceededRow, BlockedRow, FailedRow} then ReadyRow
                                                    else db.tasks[id].state,
                                                    db.tasks[id].attempt, db.tasks[id].maxAttempts, None, None)]
            else v == db
  {
  }

  /** Any other change of a run's state: final states stay, and only a blocked or failed run goes back. */
  lemma RunChangeEffect(db: Db, run: Name, state: RunState)
    ensures var v := Apply(db, RunChange(run, state));
            if run in db.runs && state != CancelledRun && (Final(db.runs[run]) ==> state == db.runs[run])
               && (state == Synchronizing ==> db.runs[run] in {BlockedRun, FailedRun, Synchronizing})
            then v == Db(db.tasks, db.runs[run := state]) else v == db
  {
  }
}
