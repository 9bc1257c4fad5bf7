/** The promises of the durable queue over any interleaving of workers. */
module DurableQueueTheorems {
  import opened Names
  import opened DurableQueue
  import opened DurableQueueRuns
  import opened DurableQueueEffects

  // ---- one row, one transaction ----------------------------------------------------------------

  predicate Takes(db: Db, s: Step, id: TaskId) {
    s.Claim? && ValidLease(s.worker, s.leaseSeconds) && s.chosen == Some(id) && Open(db, id, s.now)
  }

  /** A renewal, completion, block or retry that names `id`, accepted because its worker
      holds the live lease. */
  predicate OwnerActs(db: Db, s: Step, id: TaskId) {
    NeedsOwner(s) && s.id == id && LiveOwner(db, id, s.worker, s.now) && (s.Renew? ==> ValidLease(s.worker, s.leaseSeconds))
  }

  predicate Reopens(db: Db, run: Name) {
    run in db.runs && db.runs[run] in {BlockedRun, FailedRun}
  }

  predicate Cancels(db: Db, run: Name) {
    run in db.runs && db.runs[run] != ApprovedRun
  }

  /** A waiting row of a run that is not cancelled, with everything before it succeeded once `done` has. */
  predicate Frees(db: Db, done: TaskId, id: TaskId)
    requires done in db.tasks && id in db.tasks
  {
    && id.run == done.run && id != done && db.tasks[id].state == PendingRow
    && done.run in db.runs && db.runs[done.run] != CancelledRun
    && NothingBefore(db.tasks[done := db.tasks[done].(state := SucceededRow)], id)
  }

  /** The row of `id` after a transaction, worked out from the fields of the rows before it. */
  ghost function RowAfter(db: Db, s: Step, id: TaskId): Row
    requires id in db.tasks
  {
    var r := db.tasks[id];
    match s
    case Claim(worker, leaseSeconds, now, _) =>
      if Takes(db, s, id) then Row(RunningRow, r.attempt + 1, r.maxAttempts, Some(worker), Some(now + leaseSeconds))
      else if ValidLease(worker, leaseSeconds) && UsedUp(r, now) then Row(FailedRow, r.attempt, r.maxAttempts, None, None)
      else r
    case Renew(_, _, leaseSeconds, now) => if OwnerActs(db, s, id) then r.(expires := Some(now + leaseSeconds)) else r
    case Complete(done, worker, now) =>
      if OwnerActs(db, s, id) then Row(SucceededRow, r.attempt, r.maxAttempts, None, None)
      else if LiveOwner(db, done, worker, now) && Frees(db, done, id) then r.(state := ReadyRow)
      else r
    case BlockTask(_, _, _) => if OwnerActs(db, s, id) then Row(BlockedRow, r.attempt, r.maxAttempts, None, None) else r
    case RetryTask(_, _, _) =>
      if !OwnerActs(db, s, id) then r
      else Row(if r.attempt < r.maxAttempts then ReadyRow else FailedRow, r.attempt, r.maxAttempts, None, None)
    case RetryRun(run) =>
      if Reopens(db, run) && id.run == run && r.state in {BlockedRow, FailedRow} && NothingBefore(db.tasks, id)
      then Row(ReadyRow, 0, r.maxAttempts, None, None) else r
    case CancelRun(run) =>
      if Cancels(db, run) && id.run == run && r.state in {PendingRow, ReadyRow}
      then Row(CancelledRow, r.attempt, r.maxAttempts, None, None) else r
    case Requeue(run, key) =>
      if run in db.runs && !IsDefault(key) && id == TaskId(run, key)
      then Row(if r.state in {SucceededRow, BlockedRow, FailedRow} then ReadyRow else r.state, r.attempt, r.maxAttempts, None, None)
      else r
    case _ => r
  }

  lemma RowAfterExact(db: Db, s: Step, id: TaskId)
    requires id in db.tasks
    ensures id in Apply(db, s).tasks && Apply(db, s).tasks[id] == RowAfter(db, s, id)
  {
    hide Apply, Open, NothingBefore;
    match s {
      case CreateRun(run) => CreateEffect(db, run, id);
      case Claim(_, _, _, _) =>
        ClaimEffect(db, s);
        if s.chosen == Some(id) { OpenKnown(db, id, s.now); }
      case Renew(i, worker, leaseSeconds, now) =>
        if LiveOwner(db, i, worker, now) { RenewEffect(db, i, worker, leaseSeconds, now); } else { OthersChangeNothing(db, s); }
      case Complete(i, worker, now) =>
        if LiveOwner(db, i, worker, now) {
          CompleteEffect(db, i, worker, now);
          FreedAlike(db, i, worker, now, id);
        } else { OthersChangeNothing(db, s); }
      case BlockTask(i, worker, now) =>
        if LiveOwner(db, i, worker, now) { BlockEffect(db, i, worker, now); } else { OthersChangeNothing(db, s); }
      case RetryTask(i, worker, now) =>
        if LiveOwner(db, i, worker, now) { RetryEffect(db, i, worker, now); } else { OthersChangeNothing(db, s); }
      case RetryRun(run) => RetryRunEffect(db, run);
      case CancelRun(run) => CancelRunEffect(db, run);
      case Requeue(run, key) => RequeueEffect(db, run, key);
      case RunChange(run, state) => RunChangeEffect(db, run, state);
    }
  }

  /** What a completion frees can be told before or after the other rows are freed. */
  lemma FreedAlike(db: Db, done: TaskId, worker: Name, now: int, id: TaskId)
    requires LiveOwner(db, done, worker, now)
    ensures NothingBefore(Apply(db, Complete(done, worker, now)).tasks, id)
            <==> NothingBefore(db.tasks[done := db.tasks[done].(state := SucceededRow)], id)
  {
    hide Apply, NothingBefore;
    CompleteEffect(db, done, worker, now);
    var v, rows := Apply(db, Complete(done, worker, now)).tasks, db.tasks[done := db.tasks[done].(state := SucceededRow)];
    forall other | other in v ensures v[other].state.SucceededRow? <==> rows[other].state.SucceededRow? {
      assert AfterCompletion(db, Apply(db, Complete(done, worker, now)), done, other);
    }
    SameBefore(v, rows, id);
  }

  /** A default task becomes succeeded exactly when the worker holding its live lease
      completes it; otherwise a running one changes only through that worker, or through
      a claim made after its lease passed, which re-leases it or fails it for good. */
  lemma OnlyTheOwnerFinishes(db: Db, s: Step, id: TaskId)
    requires Inv(db) && id in db.tasks && IsDefault(id.key)
    ensures id in Apply(db, s).tasks
    ensures var r, q := db.tasks[id], Apply(db, s).tasks[id];
            && (!r.state.SucceededRow? ==> (q.state.SucceededRow? <==> s.Complete? && OwnerActs(db, s, id)))
            && (r.state.RunningRow? && q != r ==>
                  || OwnerActs(db, s, id)
                  || (s.Claim? && LeasePassed(r, s.now)
                      && (|| q == Unleased(r, FailedRow)
                          || (s.chosen == Some(id) && q == TakeRow(r, s.worker, s.leaseSeconds, s.now)))))
  {
    hide Inv, Apply, NothingBefore, PrerequisiteOk;
    RowAfterExact(db, s, id);
    InvRow(db, id);
  }

  lemma InvRow(db: Db, id: TaskId)
    requires Inv(db) && id in db.tasks
    ensures RowOk(db, id)
  {
  }

  lemma SweptRow(db: Db, id: TaskId, now: int)
    requires id in db.tasks
    ensures id in Swept(db, now).tasks && Swept(db, now).tasks[id] == SweepRow(db.tasks[id], now)
  {
    hide SweepRuns, Exhausted;
  }

  // ---- final states ------------------------------------------------------------------------------------

  lemma RunAfter(db: Db, s: Step, run: Name)
    requires run in db.runs
    ensures run in Apply(db, s).runs && MayChange(db.runs[run], Apply(db, s).runs[run])
  {
    hide Eligible, PrerequisiteMet, RunExhausted, SweepRows, Promote, InsertDefaults, RetryRows, CancelRows;
  }

  /** A succeeded default task never changes; an approved or cancelled run never leaves that
      state; and in a cancelled run no task becomes running and no waiting task succeeds. */
  lemma EndsAreFinal(db: Db, s: Step, id: TaskId)
    requires Inv(db) && id in db.tasks && IsDefault(id.key)
    ensures id in Apply(db, s).tasks && id.run in db.runs && id.run in Apply(db, s).runs
    ensures var r, q := db.tasks[id], Apply(db, s).tasks[id];
            && (r.state.SucceededRow? ==> q == r)
            && (db.runs[id.run].ApprovedRun? || db.runs[id.run].CancelledRun? ==> Apply(db, s).runs[id.run] == db.runs[id.run])
            && (db.runs[id.run].CancelledRun? && q.state.RunningRow? ==> r.state.RunningRow? && q.attempt == r.attempt && q.owner == r.owner)
            && (db.runs[id.run].CancelledRun? && q.state.SucceededRow? ==> r.state.SucceededRow? || r.state.RunningRow?)
  {
    hide Inv, Apply, NothingBefore, PrerequisiteOk;
    RowAfterExact(db, s, id);
    InvRow(db, id);
    RunAfter(db, s, id.run);
  }

  lemma SweptRun(db: Db, run: Name, now: int)
    requires run in db.runs
    ensures run in Swept(db, now).runs && (db.runs[run].CancelledRun? <==> Swept(db, now).runs[run].CancelledRun?)
  {
    hide RunExhausted, SweepRows;
  }

  /** The same over whole interleavings. */
  lemma {:induction false} FinalForever(steps: seq<Step>, more: seq<Step>, id: TaskId)
    requires var db := ApplyAll(EMPTY_DB, steps); id in db.tasks && IsDefault(id.key)
    ensures var db, v := ApplyAll(EMPTY_DB, steps), ApplyAll(EMPTY_DB, steps + more);
            && id in v.tasks && id.run in db.runs && id.run in v.runs
            && (db.tasks[id].state.SucceededRow? ==> v.tasks[id] == db.tasks[id])
            && (db.runs[id.run].ApprovedRun? || db.runs[id.run].CancelledRun? ==> v.runs[id.run] == db.runs[id.run])
            && (db.runs[id.run].CancelledRun? && v.tasks[id].state.RunningRow? ==>
                  db.tasks[id].state.RunningRow? && v.tasks[id].attempt == db.tasks[id].attempt)
  {
    hide Apply, Inv;
    ReachableInv(steps);
    InvRow(ApplyAll(EMPTY_DB, steps), id);
    if more == [] {
      assert steps + more == steps;
    } else {
      var rest, last := more[..|more| - 1], more[|more| - 1];
      var all := steps + more;
      assert all[..|all| - 1] == steps + rest;
      FinalForever(steps, rest, id);
      var u := ApplyAll(EMPTY_DB, steps + rest);
      ReachableInv(steps + rest);
      InvRow(u, id);
      RowAfterExact(u, last, id);
      EndsAreFinal(u, last, id);
    }
  }

  // ---- a worker that lost its lease ------------------------------------------------------------------------

  /** A step by which `worker` would act on `id` as its owner. */
  predicate ActsOn(s: Step, worker: Name, id: TaskId) {
    || (s.Renew? && s.id == id && s.worker == worker)
    || (s.Complete? && s.id == id && s.worker == worker)
    || (s.BlockTask? && s.id == id && s.worker == worker)
    || (s.RetryTask? && s.id == id && s.worker == worker)
  }

  ghost function Without(steps: seq<Step>, worker: Name, id: TaskId): seq<Step> {
    if steps == [] then []
    else
      var last := steps[|steps| - 1];
      Without(steps[..|steps| - 1], worker, id) + if ActsOn(last, worker, id) then [] else [last]
  }

  lemma NotOwnerNoEffect(db: Db, s: Step, worker: Name, id: TaskId)
    requires id in db.tasks && db.tasks[id].owner != Some(worker)
    ensures ActsOn(s, worker, id) ==> Apply(db, s) == db
    ensures !(s.Claim? && s.worker == worker && s.chosen == Some(id)) ==>
              id in Apply(db, s).tasks && Apply(db, s).tasks[id].owner != Some(worker)
  {
    hide Apply, NothingBefore, Open;
    RowAfterExact(db, s, id);
    if ActsOn(s, worker, id) { RefusedAct(db, s, worker, id); }
  }

  lemma RefusedAct(db: Db, s: Step, worker: Name, id: TaskId)
    requires id in db.tasks && db.tasks[id].owner != Some(worker) && ActsOn(s, worker, id)
    ensures Apply(db, s) == db
  {
    hide Promote;
  }

  /** Whatever a worker still sends for a task it no longer owns has no effect on anything,
      for as long as it does not claim the task again. */
  lemma {:induction false} LateStepsVanish(db: Db, steps: seq<Step>, worker: Name, id: TaskId)
    requires id in db.tasks && db.tasks[id].owner != Some(worker)
    requires forall s :: s in steps ==> !(s.Claim? && s.worker == worker && s.chosen == Some(id))
    ensures ApplyAll(db, steps) == ApplyAll(db, Without(steps, worker, id))
    ensures id in ApplyAll(db, steps).tasks && ApplyAll(db, steps).tasks[id].owner != Some(worker)
  {
    hide Apply, ActsOn;
    if steps != [] {
      var rest, last := steps[..|steps| - 1], steps[|steps| - 1];
      assert last in steps;
      LateStepsVanish(db, rest, worker, id);
      NotOwnerNoEffect(ApplyAll(db, rest), last, worker, id);
      if ActsOn(last, worker, id) {
        assert Without(steps, worker, id) == Without(rest, worker, id);
      }
    }
  }

  // ---- bounded work -------------------------------------------------------------------------------------------

  ghost function TakesIn(db: Db, steps: seq<Step>, id: TaskId): nat {
    if steps == [] then 0
    else
      var before := ApplyAll(db, steps[..|steps| - 1]);
      TakesIn(db, steps[..|steps| - 1], id) + if Takes(before, steps[|steps| - 1], id) then 1 else 0
  }

  lemma AttemptAfter(db: Db, s: Step, id: TaskId)
    requires id in db.tasks && s != RetryRun(id.run)
    ensures id in Apply(db, s).tasks
    ensures Apply(db, s).tasks[id].attempt == db.tasks[id].attempt + if Takes(db, s, id) then 1 else 0
    ensures Apply(db, s).tasks[id].maxAttempts == db.tasks[id].maxAttempts
  {
    hide Apply, NothingBefore, Open;
    RowAfterExact(db, s, id);
  }

  /** Until an operator retries the run, a task is claimed at most as often as its budget allows. */
  lemma {:induction false} ClaimsWithinBudget(db: Db, steps: seq<Step>, id: TaskId)
    requires Inv(db) && id in db.tasks && RetryRun(id.run) !in steps
    ensures id in ApplyAll(db, steps).tasks && Inv(ApplyAll(db, steps))
    ensures ApplyAll(db, steps).tasks[id].attempt == db.tasks[id].attempt + TakesIn(db, steps, id)
    ensures ApplyAll(db, steps).tasks[id].maxAttempts == db.tasks[id].maxAttempts
    ensures db.tasks[id].attempt + TakesIn(db, steps, id) <= db.tasks[id].maxAttempts
  {
    hide Apply, Inv, Takes;
    if steps != [] {
      var rest, last := steps[..|steps| - 1], steps[|steps| - 1];
      assert last in steps;
      ClaimsWithinBudget(db, rest, id);
      AttemptAfter(ApplyAll(db, rest), last, id);
      StepKeepsInv(ApplyAll(db, rest), last);
    }
    InvRow(ApplyAll(db, steps), id);
  }

  // ---- no run is stuck ----------------------------------------------------------------------------------------

  /** The first task of the chain that has not succeeded. */
  ghost function Frontier(db: Db, run: Name): TaskId
    requires HasDefaults(db, run)
  {
    if !db.tasks[TaskId(run, Preflight)].state.SucceededRow? then TaskId(run, Preflight)
    else if !db.tasks[TaskId(run, SynchronizeSources)].state.SucceededRow? then TaskId(run, SynchronizeSources)
    else if !db.tasks[TaskId(run, CollectEvidence)].state.SucceededRow? then TaskId(run, CollectEvidence)
    else TaskId(run, ReconcileTask)
  }

  lemma FrontierOk(db: Db, run: Name)
    requires Inv(db) && run in db.runs
    ensures HasDefaults(db, run) && RowOk(db, Frontier(db, run))
    ensures forall key :: IsDefault(key) ==> RowOk(db, TaskId(run, key))
  {
    assert HasDefaults(db, run);
  }

  /** In a run that is not cancelled, the first unfinished task of the chain is never waiting. */
  lemma FrontierIsOpen(db: Db, run: Name)
    requires Inv(db) && run in db.runs && !db.runs[run].CancelledRun?
    ensures HasDefaults(db, run)
    ensures !db.tasks[Frontier(db, run)].state.PendingRow? && !db.tasks[Frontier(db, run)].state.CancelledRow?
    ensures db.tasks[Frontier(db, run)].state.SucceededRow? ==>
              forall key :: IsDefault(key) ==> db.tasks[TaskId(run, key)].state.SucceededRow?
  {
    hide Inv;
    FrontierOk(db, run);
  }

  /** While a run is open, unfinished and not blocked, a claim made after its leases passed
      can take its next task, or fails it for good and blocks the run. */
  lemma WorkIsAlwaysAvailable(db: Db, run: Name, worker: Name, leaseSeconds: int, now: int)
    requires Inv(db) && run in db.runs && !db.runs[run].CancelledRun? && !db.runs[run].ApprovedRun? && ValidLease(worker, leaseSeconds)
    requires HasDefaults(db, run)
    requires var r := db.tasks[Frontier(db, run)];
             !r.state.SucceededRow? && !r.state.BlockedRow? && !r.state.FailedRow? && (r.expires.Some? ==> r.expires.value < now)
    ensures var id := Frontier(db, run);
            var v := Apply(db, Claim(worker, leaseSeconds, now, Some(id)));
            id in v.tasks && run in v.runs
            && (|| (v.tasks[id].state.RunningRow? && v.tasks[id].owner == Some(worker))
                || (v.tasks[id].state.FailedRow? && v.runs[run].BlockedRun?))
  {
    hide Inv, Promote, InsertDefaults, PrerequisiteOk;
    FrontierOk(db, run);
    FrontierIsOpen(db, run);
    var id := Frontier(db, run);
    SweptRow(db, id, now);
    RowAfterExact(db, Claim(worker, leaseSeconds, now, Some(id)), id);
    if Exhausted(db.tasks[id], now) { assert RunExhausted(db.tasks, run, now); }
    SweptRun(db, run, now);
  }

  /** An operator's retry of a blocked or failed run reopens it: the run synchronizes again, and its
      first unfinished task is no longer blocked or failed. */
  lemma RetryReopens(db: Db, run: Name)
    requires Inv(db) && run in db.runs && (db.runs[run].BlockedRun? || db.runs[run].FailedRun?)
    ensures var v := Apply(db, RetryRun(run));
            && Inv(v) && run in v.runs && v.runs[run].Synchronizing? && HasDefaults(v, run)
            && var s := v.tasks[Frontier(v, run)].state; s.ReadyRow? || s.RunningRow? || s.SucceededRow?
  {
    hide Inv, PrerequisiteMet, PrerequisiteOk, RowOk, HasDefaults;
    var v := Apply(db, RetryRun(run));
    StepKeepsInv(db, RetryRun(run));
    KnownDefaults(v, run);
    var id := Frontier(v, run);
    FrontierIsOpen(v, run);
    FrontierPrerequisite(v, run);
    RowAfterExact(db, RetryRun(run), id);
  }

  lemma KnownDefaults(db: Db, run: Name)
    requires Inv(db) && run in db.runs
    ensures HasDefaults(db, run)
  {
  }

  /** What comes before the frontier has succeeded. */
  lemma FrontierPrerequisite(db: Db, run: Name)
    requires HasDefaults(db, run)
    ensures var id := Frontier(db, run);
            id in db.tasks && id.run == run && IsDefault(id.key) && PrerequisiteMet(db.tasks, id)
  {
  }

  /** So after a retry a claim made once the lease of the first unfinished task passed, if it has
      one, takes that task, or fails it for good and blocks the run again. */
  lemma RetriedRunCanBeWorked(db: Db, run: Name, worker: Name, leaseSeconds: int, now: int)
    requires Inv(db) && run in db.runs && (db.runs[run].BlockedRun? || db.runs[run].FailedRun?) && ValidLease(worker, leaseSeconds)
    ensures HasDefaults(Apply(db, RetryRun(run)), run)
    ensures var u := Apply(db, RetryRun(run));
            var id := Frontier(u, run);
            var v := Apply(u, Claim(worker, leaseSeconds, now, Some(id)));
            !u.tasks[id].state.SucceededRow? && (u.tasks[id].expires.Some? ==> u.tasks[id].expires.value < now) ==>
              && id in v.tasks && run in v.runs
              && (|| (v.tasks[id].state.RunningRow? && v.tasks[id].owner == Some(worker))
                  || (v.tasks[id].state.FailedRow? && v.runs[run].BlockedRun?))
  {
    hide Apply, Inv, Frontier;
    RetryReopens(db, run);
    var u := Apply(db, RetryRun(run));
    FrontierPrerequisite(u, run);
    var r := u.tasks[Frontier(u, run)];
    if !r.state.SucceededRow? && (r.expires.Some? ==> r.expires.value < now) {
      WorkIsAlwaysAvailable(u, run, worker, leaseSeconds, now);
    }
  }

  /** Completing the last task of the chain opens the review, unless a requeued action is unfinished. */
  lemma LastTaskOpensReview(db: Db, run: Name, worker: Name, now: int)
    requires Inv(db) && run in db.runs && db.runs[run].Synchronizing?
    requires Owns(db, TaskId(run, ReconcileTask), worker, now)
    requires forall id :: id in db.tasks && id.run == run && !IsDefault(id.key) ==> db.tasks[id].state.SucceededRow?
    ensures var v := Apply(db, Complete(TaskId(run, ReconcileTask), worker, now));
            && run in v.runs && v.runs[run] == ReviewReady && AllSucceededIn(v.tasks, run)
  {
    hide Inv, HasDefaults, Promote, InsertDefaults;
    FrontierOk(db, run);
    var last := TaskId(run, ReconcileTask);
    var done := db.tasks[last := Unleased(db.tasks[last], SucceededRow)];
    forall id | id in done && id.run == run ensures done[id].state.SucceededRow? {
      if IsDefault(id.key) {
        assert id == TaskId(run, id.key);
      }
    }
    PromoteNothing(done, run);
  }

  lemma PromoteNothing(tasks: Rows, run: Name)
    requires AllSucceededIn(tasks, run)
    ensures Promote(tasks, run) == tasks
  {
    hide PrerequisiteMet;
  }
}
