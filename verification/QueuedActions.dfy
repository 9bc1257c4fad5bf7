/** Action rows that are queued again: when one can be claimed, and the two ways one gets stuck. */
module QueuedActions {
  import opened Names
  import opened DurableQueue
  import opened DurableQueueRuns
  import opened DurableQueueEffects
  import opened DurableQueueTheorems

  /** The transaction queues this action row again. */
  predicate Requeues(db: Db, s: Step, id: TaskId) {
    s == Requeue(id.run, id.key) && !IsDefault(id.key) && id.run in db.runs
  }

  // ---- when a queued action can be claimed -----------------------------------------------------------

  /** An action that was just queued can be claimed exactly when its run is open, it was not running,
      and it has attempts left: queuing gives back neither a lease nor an attempt. */
  lemma QueuedActionClaimableExactlyWhen(db: Db, id: TaskId, worker: Name, leaseSeconds: int, now: int)
    requires Inv(db) && Requeues(db, Requeue(id.run, id.key), id)
    ensures Takes(Apply(db, Requeue(id.run, id.key)), Claim(worker, leaseSeconds, now, Some(id)), id)
       <==> && ValidLease(worker, leaseSeconds) && !db.runs[id.run].CancelledRun?
            && (id in db.tasks ==> !db.tasks[id].state.RunningRow? && db.tasks[id].attempt < db.tasks[id].maxAttempts)
  {
    hide Inv;
    if id in db.tasks { InvRow(db, id); }
  }

  // ---- a running row that loses its lease -----------------------------------------------------------------

  /** A running row that nobody leases. */
  ghost predicate Orphaned(db: Db, id: TaskId) {
    id in db.tasks && db.tasks[id].state.RunningRow? && db.tasks[id].owner.None? && db.tasks[id].expires.None?
  }

  /** Queuing an action again leaves its row running without a lease exactly when it was running. */
  lemma RequeueOrphansExactlyRunning(db: Db, run: Name, key: TaskKey)
    requires run in db.runs && !IsDefault(key)
    ensures var id := TaskId(run, key);
            Orphaned(Apply(db, Requeue(run, key)), id) <==> id in db.tasks && db.tasks[id].state.RunningRow?
  {
  }

  /** The transaction queues the row again while it is running. */
  ghost predicate FindsRunning(db: Db, s: Step, id: TaskId) {
    Requeues(db, s, id) && id in db.tasks && db.tasks[id].state.RunningRow?
  }

  /** Of all transactions, only one that queues a running row again takes its lease away. */
  lemma StepOrphansExactly(db: Db, s: Step, id: TaskId)
    requires Inv(db) && !Orphaned(db, id)
    ensures Orphaned(Apply(db, s), id) <==> FindsRunning(db, s, id)
  {
    hide Inv, Apply, NothingBefore, PrerequisiteOk;
    if Requeues(db, s, id) {
      RequeueOrphansExactlyRunning(db, id.run, id.key);
    } else if id in db.tasks {
      InvRow(db, id);
      RowAfterExact(db, s, id);
    } else {
      NewRowState(db, s, id);
    }
  }

  /** A new row starts waiting or ready, with its attempts unused. */
  lemma NewRowState(db: Db, s: Step, id: TaskId)
    requires id !in db.tasks
    ensures id in Apply(db, s).tasks ==> Apply(db, s).tasks[id] == NewRow(id.key)
  {
    hide PrerequisiteMet, RunExhausted, Exhausted, SweepRuns, Cancels;
    match s {
      case CreateRun(run) => InsertsExactly(db.tasks, run, id);
      case _ =>
    }
  }

  ghost predicate RequeuedRunningAt(steps: seq<Step>, n: nat, id: TaskId)
    requires n < |steps|
  {
    FindsRunning(ApplyAll(EMPTY_DB, steps[..n]), steps[n], id)
  }

  /** Over any interleaving, a row is running without a lease exactly when some transaction
      queued it again while it was running. */
  lemma {:induction false} OrphanedExactlyWhen(steps: seq<Step>, id: TaskId)
    ensures Orphaned(ApplyAll(EMPTY_DB, steps), id) <==> exists n :: 0 <= n < |steps| && RequeuedRunningAt(steps, n, id)
  {
    hide Apply, Inv, Orphaned, FindsRunning;
    if steps == [] {
      NothingOrphaned(id);
    } else {
      var rest, last := steps[..|steps| - 1], steps[|steps| - 1];
      var db := ApplyAll(EMPTY_DB, rest);
      OrphanedExactlyWhen(rest, id);
      ReachableInv(rest);
      forall n | 0 <= n < |rest| ensures RequeuedRunningAt(steps, n, id) <==> RequeuedRunningAt(rest, n, id) {
        assert rest[..n] == steps[..n];
      }
      if Orphaned(db, id) {
        OrphanStays(db, last, id);
        var n :| 0 <= n < |rest| && RequeuedRunningAt(rest, n, id);
        assert RequeuedRunningAt(steps, n, id);
      } else {
        StepOrphansExactly(db, last, id);
        assert RequeuedRunningAt(steps, |rest|, id) <==> FindsRunning(db, last, id);
      }
    }
  }

  lemma NothingOrphaned(id: TaskId)
    ensures !Orphaned(ApplyAll(EMPTY_DB, []), id)
  {
  }

  /** And then no transaction of any worker or operator ever moves that row again. */
  lemma {:induction false} OrphansStayForever(db: Db, steps: seq<Step>, id: TaskId)
    requires Orphaned(db, id)
    ensures Orphaned(ApplyAll(db, steps), id) && ApplyAll(db, steps).tasks[id] == db.tasks[id]
  {
    hide Apply;
    if steps != [] {
      OrphansStayForever(db, steps[..|steps| - 1], id);
      OrphanStays(ApplyAll(db, steps[..|steps| - 1]), steps[|steps| - 1], id);
    }
  }

  lemma OrphanStays(db: Db, s: Step, id: TaskId)
    requires Orphaned(db, id)
    ensures Orphaned(Apply(db, s), id) && Apply(db, s).tasks[id] == db.tasks[id]
  {
    hide Apply, NothingBefore;
    RowAfterExact(db, s, id);
  }

  // ---- a ready row without attempts --------------------------------------------------------------------------

  /** A ready action that has used its attempts. */
  ghost predicate OutOfAttempts(db: Db, id: TaskId) {
    id in db.tasks && db.tasks[id].state.ReadyRow? && db.tasks[id].attempt >= db.tasks[id].maxAttempts
  }

  /** The transaction queues an ended row again that has used its attempts. */
  ghost predicate FindsExhausted(db: Db, s: Step, id: TaskId) {
    && Requeues(db, s, id) && id in db.tasks && db.tasks[id].attempt >= db.tasks[id].maxAttempts
    && (db.tasks[id].state.SucceededRow? || db.tasks[id].state.BlockedRow? || db.tasks[id].state.FailedRow?)
  }

  /** Of all transactions, only one that queues an exhausted row again makes it ready without attempts. */
  lemma StepExhaustsExactly(db: Db, s: Step, id: TaskId)
    requires Inv(db) && !OutOfAttempts(db, id)
    ensures OutOfAttempts(Apply(db, s), id) <==> FindsExhausted(db, s, id)
  {
    hide Inv, Apply, NothingBefore, PrerequisiteOk;
    if id in db.tasks {
      InvRow(db, id);
      RowAfterExact(db, s, id);
    } else {
      NewRowState(db, s, id);
    }
  }

  /** Nothing but the cancellation of its run ever moves such a row. */
  lemma OutOfAttemptsStays(db: Db, s: Step, id: TaskId)
    requires Inv(db) && OutOfAttempts(db, id)
    ensures OutOfAttempts(db, id) && id in Apply(db, s).tasks && id.run in db.runs
    ensures Apply(db, s).tasks[id]
         == if s == CancelRun(id.run) && Cancels(db, id.run) then Unleased(db.tasks[id], CancelledRow) else db.tasks[id]
    ensures !Takes(db, s, id)
  {
    hide Inv, Apply, NothingBefore, PrerequisiteOk;
    InvRow(db, id);
    RowAfterExact(db, s, id);
  }

  ghost predicate RequeuedExhaustedAt(steps: seq<Step>, n: nat, id: TaskId)
    requires n < |steps|
  {
    FindsExhausted(ApplyAll(EMPTY_DB, steps[..n]), steps[n], id)
  }

  ghost predicate CancelledAt(steps: seq<Step>, n: nat, run: Name)
    requires n < |steps|
  {
    var db := ApplyAll(EMPTY_DB, steps[..n]);
    steps[n] == CancelRun(run) && Cancels(db, run)
  }

  /** Queued again without attempts by transaction `n`, in a run that was not cancelled since. */
  ghost predicate ExhaustedSince(steps: seq<Step>, n: nat, id: TaskId)
    requires n < |steps|
  {
    RequeuedExhaustedAt(steps, n, id) && forall m :: n < m < |steps| ==> !CancelledAt(steps, m, id.run)
  }

  ghost predicate EndsExhausted(steps: seq<Step>, id: TaskId) {
    exists n :: 0 <= n < |steps| && ExhaustedSince(steps, n, id)
  }

  /** Over any interleaving, an action is ready and can never be claimed exactly when it was queued
      again without attempts left and its run was not cancelled since. */
  lemma {:induction false} OutOfAttemptsExactlyWhen(steps: seq<Step>, id: TaskId)
    ensures OutOfAttempts(ApplyAll(EMPTY_DB, steps), id) <==> EndsExhausted(steps, id)
  {
    hide Apply, Inv, OutOfAttempts, FindsExhausted, Cancels;
    if steps == [] {
      NothingExhausted(id);
    } else {
      var rest, last := steps[..|steps| - 1], steps[|steps| - 1];
      var db := ApplyAll(EMPTY_DB, rest);
      OutOfAttemptsExactlyWhen(rest, id);
      ReachableInv(rest);
      ExhaustedSnoc(steps, id);
      if OutOfAttempts(db, id) {
        OutOfAttemptsStays(db, last, id);
        OutOfAttemptsMeans(db, last, id);
      } else {
        StepExhaustsExactly(db, last, id);
      }
    }
  }

  lemma OutOfAttemptsMeans(db: Db, s: Step, id: TaskId)
    requires Inv(db) && OutOfAttempts(db, id)
    ensures OutOfAttempts(Apply(db, s), id) <==> !(s == CancelRun(id.run) && Cancels(db, id.run))
    ensures !FindsExhausted(db, s, id)
  {
    hide Inv, Apply, Cancels;
    OutOfAttemptsStays(db, s, id);
  }

  lemma ExhaustedSnoc(steps: seq<Step>, id: TaskId)
    requires steps != []
    ensures EndsExhausted(steps, id)
       <==> || RequeuedExhaustedAt(steps, |steps| - 1, id)
            || (EndsExhausted(steps[..|steps| - 1], id) && !CancelledAt(steps, |steps| - 1, id.run))
  {
    hide ApplyAll, FindsExhausted, Cancels;
    var rest, n := steps[..|steps| - 1], |steps| - 1;
    forall k | 0 <= k < n
      ensures RequeuedExhaustedAt(steps, k, id) <==> RequeuedExhaustedAt(rest, k, id)
      ensures CancelledAt(steps, k, id.run) <==> CancelledAt(rest, k, id.run)
    {
      assert rest[..k] == steps[..k];
    }
    forall k | 0 <= k < n ensures ExhaustedSince(steps, k, id) <==> ExhaustedSince(rest, k, id) && !CancelledAt(steps, n, id.run) {
      if ExhaustedSince(steps, k, id) {
        forall m | k < m < n ensures !CancelledAt(rest, m, id.run) { assert !CancelledAt(steps, m, id.run); }
      }
    }
    assert ExhaustedSince(steps, n, id) <==> RequeuedExhaustedAt(steps, n, id);
    if RequeuedExhaustedAt(steps, n, id) { assert ExhaustedSince(steps, n, id); }
    if k :| 0 <= k < n && ExhaustedSince(rest, k, id) { assert !CancelledAt(steps, n, id.run) ==> ExhaustedSince(steps, k, id); }
  }

  lemma NothingExhausted(id: TaskId)
    ensures !OutOfAttempts(ApplyAll(EMPTY_DB, []), id)
  {
  }

  // ---- runs that get stuck --------------------------------------------------------------------------------------

  /** The row as it stands, in a run that is not cancelled. */
  ghost predicate Stands(db: Db, id: TaskId, r: Row) {
    id in db.tasks && db.tasks[id] == r && id.run in db.runs && !db.runs[id.run].CancelledRun?
  }

  /** The action was never queued, in a run that is known and not cancelled. */
  ghost predicate NotYetQueued(db: Db, id: TaskId) {
    !IsDefault(id.key) && id !in db.tasks && id.run in db.runs && !db.runs[id.run].CancelledRun?
  }

  lemma FirstQueued(db: Db, id: TaskId)
    requires NotYetQueued(db, id)
    ensures Stands(Apply(db, Requeue(id.run, id.key)), id, NewRow(id.key))
  {
  }

  lemma QueuedAgain(db: Db, id: TaskId, r: Row)
    requires Stands(db, id, r) && !IsDefault(id.key)
    ensures Stands(Apply(db, Requeue(id.run, id.key)), id, RequeueRow(r))
  {
  }

  /** A claim of a ready row, or of a running one whose lease passed. */
  lemma ClaimStands(db: Db, id: TaskId, r: Row, worker: Name, leaseSeconds: int, now: int)
    requires Stands(db, id, r) && ValidLease(worker, leaseSeconds) && r.attempt < r.maxAttempts
    requires (r.state.ReadyRow? && r.expires.None?) || (r.state.RunningRow? && LeasePassed(r, now))
    ensures Stands(Apply(db, Claim(worker, leaseSeconds, now, Some(id))), id, TakeRow(r, worker, leaseSeconds, now))
  {
    hide RunExhausted, SweepRows, SweepRuns;
    SweptRow(db, id, now);
    SweptRun(db, id.run, now);
  }

  lemma BlockStands(db: Db, id: TaskId, r: Row, worker: Name, now: int)
    requires Stands(db, id, r) && r.state.RunningRow? && r.owner == Some(worker) && LeaseLive(r, now)
    ensures Stands(Apply(db, BlockTask(id, worker, now)), id, Unleased(r, BlockedRow))
  {
  }

  lemma Then(steps: seq<Step>, s: Step)
    ensures ApplyAll(EMPTY_DB, steps + [s]) == Apply(ApplyAll(EMPTY_DB, steps), s)
  {
    assert (steps + [s])[..|steps|] == steps;
  }

  /** The action is queued for the first time and claimed. */
  function Claimed(steps: seq<Step>, id: TaskId, worker: Name, leaseSeconds: int, now: int): seq<Step> {
    steps + [Requeue(id.run, id.key)] + [Claim(worker, leaseSeconds, now, Some(id))]
  }

  lemma ClaimedStands(steps: seq<Step>, id: TaskId, worker: Name, leaseSeconds: int, now: int)
    requires NotYetQueued(ApplyAll(EMPTY_DB, steps), id) && ValidLease(worker, leaseSeconds)
    ensures Stands(ApplyAll(EMPTY_DB, Claimed(steps, id, worker, leaseSeconds, now)), id, TakeRow(NewRow(id.key), worker, leaseSeconds, now))
  {
    hide Apply, ApplyAll, Stands, TakeRow;
    var queue, claim := Requeue(id.run, id.key), Claim(worker, leaseSeconds, now, Some(id));
    Then(steps, queue);
    FirstQueued(ApplyAll(EMPTY_DB, steps), id);
    Then(steps + [queue], claim);
    ClaimStands(ApplyAll(EMPTY_DB, steps + [queue]), id, NewRow(id.key), worker, leaseSeconds, now);
  }

  /** After any history, queuing an action again while a worker holds it leaves it running without a lease. */
  lemma QueuedWhileRunning(steps: seq<Step>, id: TaskId, worker: Name, leaseSeconds: int, now: int)
    requires NotYetQueued(ApplyAll(EMPTY_DB, steps), id) && ValidLease(worker, leaseSeconds)
    ensures Orphaned(ApplyAll(EMPTY_DB, Claimed(steps, id, worker, leaseSeconds, now) + [Requeue(id.run, id.key)]), id)
  {
    hide Apply, ApplyAll, Claimed;
    var held := Claimed(steps, id, worker, leaseSeconds, now);
    ClaimedStands(steps, id, worker, leaseSeconds, now);
    Then(held, Requeue(id.run, id.key));
    QueuedAgain(ApplyAll(EMPTY_DB, held), id, TakeRow(NewRow(id.key), worker, leaseSeconds, now));
  }

  /** The action outlives two leases of a second and is blocked at its last attempt. */
  function UsedUp(steps: seq<Step>, id: TaskId, worker: Name, now: int): seq<Step> {
    Claimed(steps, id, worker, 1, now)
    + [Claim(worker, 1, now + 2, Some(id))] + [Claim(worker, 1, now + 4, Some(id))] + [BlockTask(id, worker, now + 4)]
  }

  /** After any history, an action blocked at its last attempt and queued again is ready without
      attempts, and no worker can ever claim it. */
  lemma QueuedAtItsBudget(steps: seq<Step>, id: TaskId, worker: Name, now: int)
    requires NotYetQueued(ApplyAll(EMPTY_DB, steps), id) && worker.text != ""
    ensures OutOfAttempts(ApplyAll(EMPTY_DB, UsedUp(steps, id, worker, now) + [Requeue(id.run, id.key)]), id)
  {
    hide Apply, ApplyAll, Claimed;
    var first := Claimed(steps, id, worker, 1, now);
    var again, last := Claim(worker, 1, now + 2, Some(id)), Claim(worker, 1, now + 4, Some(id));
    var r1 := TakeRow(NewRow(id.key), worker, 1, now);
    var r2 := TakeRow(r1, worker, 1, now + 2);
    var r3 := TakeRow(r2, worker, 1, now + 4);
    ClaimedStands(steps, id, worker, 1, now);
    Then(first, again);
    ClaimStands(ApplyAll(EMPTY_DB, first), id, r1, worker, 1, now + 2);
    Then(first + [again], last);
    ClaimStands(ApplyAll(EMPTY_DB, first + [again]), id, r2, worker, 1, now + 4);
    Then(first + [again] + [last], BlockTask(id, worker, now + 4));
    BlockStands(ApplyAll(EMPTY_DB, first + [again] + [last]), id, r3, worker, now + 4);
    Then(UsedUp(steps, id, worker, now), Requeue(id.run, id.key));
    QueuedAgain(ApplyAll(EMPTY_DB, UsedUp(steps, id, worker, now)), id, Unleased(r3, BlockedRow));
  }
}
