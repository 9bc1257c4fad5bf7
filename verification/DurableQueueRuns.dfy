/** What holds after any interleaving of queue transactions by any workers. */
module DurableQueueRuns {
  import opened Names
  import opened DurableQueue

  predicate StartedRow(s: RowState) { !s.PendingRow? && !s.CancelledRow? }

  ghost predicate PrerequisiteOk(db: Db, id: TaskId)
    requires id in db.tasks && id.run in db.runs
  {
    match Prerequisite(id.key)
    case None => !db.tasks[id].state.PendingRow?
    case Some(key) =>
      var before := TaskId(id.run, key);
      && before in db.tasks
      && (StartedRow(db.tasks[id].state) ==> db.tasks[before].state.SucceededRow?)
      && (db.tasks[id].state.PendingRow? && !db.runs[id.run].CancelledRun? ==> !db.tasks[before].state.SucceededRow?)
  }

  ghost predicate RowOk(db: Db, id: TaskId)
    requires id in db.tasks
  {
    var r := db.tasks[id];
    && id.run in db.runs
    && 0 <= r.attempt <= r.maxAttempts && r.maxAttempts >= 1 && (r.state.PendingRow? ==> r.attempt == 0)
    && (r.owner.Some? <==> r.expires.Some?) && (r.owner.Some? ==> r.state.RunningRow?)
    && (IsDefault(id.key) ==> (r.state.RunningRow? ==> r.owner.Some?) && (r.state.ReadyRow? ==> r.attempt < r.maxAttempts))
    && (r.state.CancelledRow? ==> db.runs[id.run].CancelledRun?)
    && PrerequisiteOk(db, id)
  }

  ghost predicate HasDefaults(db: Db, run: Name) {
    forall key :: IsDefault(key) ==> TaskId(run, key) in db.tasks
  }

  ghost predicate Inv(db: Db) {
    && (forall id :: id in db.tasks ==> RowOk(db, id))
    && (forall run :: run in db.runs ==> HasDefaults(db, run))
  }

  // ---- every transaction keeps the invariant ------------------------------------------------------

  lemma InsertOne(tasks: Rows, run: Name, key: TaskKey, id: TaskId)
    ensures id in Insert(tasks, run, key) <==> id in tasks || id == TaskId(run, key)
    ensures id in Insert(tasks, run, key) ==> Insert(tasks, run, key)[id] == if id in tasks then tasks[id] else NewRow(id.key)
  {
  }

  /** The default rows are added where absent, and nothing else changes. */
  lemma InsertsExactly(tasks: Rows, run: Name, id: TaskId)
    ensures id in InsertDefaults(tasks, run) <==> id in tasks || (id.run == run && IsDefault(id.key))
    ensures id in InsertDefaults(tasks, run) ==> InsertDefaults(tasks, run)[id] == if id in tasks then tasks[id] else NewRow(id.key)
  {
    hide Insert, NewRow;
    var a := Insert(tasks, run, Preflight);
    var b := Insert(a, run, SynchronizeSources);
    InsertOne(tasks, run, Preflight, id);
    InsertOne(a, run, SynchronizeSources, id);
    InsertOne(b, run, CollectEvidence, id);
    InsertOne(Insert(b, run, CollectEvidence), run, ReconcileTask, id);
    assert IsDefault(id.key) <==> id.key in [Preflight, SynchronizeSources, CollectEvidence, ReconcileTask];
  }

  lemma CreateKeeps(db: Db, run: Name, id: TaskId)
    requires Inv(db) && id in Apply(db, CreateRun(run)).tasks
    ensures RowOk(Apply(db, CreateRun(run)), id)
  {
    hide Inv, InsertDefaults;
    InsertsExactly(db.tasks, run, id);
    KnownRun(db, id);
    if Prerequisite(id.key).Some? {
      var before := TaskId(id.run, Prerequisite(id.key).value);
      InsertsExactly(db.tasks, run, before);
      KnownRun(db, before);
    }
  }

  /** A row belongs to a known run, and a known run has its default rows. */
  lemma KnownRun(db: Db, id: TaskId)
    requires Inv(db)
    ensures id in db.tasks ==> RowOk(db, id)
    ensures id.run in db.runs && IsDefault(id.key) ==> id in db.tasks
  {
    if id.run in db.runs { assert HasDefaults(db, id.run); }
  }

  lemma CreateHasDefaults(db: Db, run: Name)
    requires forall other :: other in db.runs ==> HasDefaults(db, other)
    ensures forall other :: other in Apply(db, CreateRun(run)).runs ==> HasDefaults(Apply(db, CreateRun(run)), other)
  {
    var v := Apply(db, CreateRun(run));
    forall other | other in v.runs ensures HasDefaults(v, other) {
      if other in db.runs { assert HasDefaults(db, other); }
    }
  }

  lemma SweepKeeps(db: Db, now: int)
    requires Inv(db)
    ensures Inv(Swept(db, now))
  {
    var s := Swept(db, now);
    forall id | id in s.tasks ensures RowOk(s, id) {
      assert RowOk(db, id);
      if Prerequisite(id.key).Some? {
        var before := TaskId(id.run, Prerequisite(id.key).value);
        assert RowOk(db, before);
      }
    }
    forall run | run in s.runs ensures HasDefaults(s, run) { assert HasDefaults(db, run); }
  }

  lemma ClaimKeeps(db: Db, worker: Name, leaseSeconds: int, now: int, chosen: Option<TaskId>)
    requires Inv(db)
    ensures Inv(ClaimStep(db, worker, leaseSeconds, now, chosen))
  {
    hide Swept;
    if ValidLease(worker, leaseSeconds) {
      SweepKeeps(db, now);
      var s := Swept(db, now);
      if chosen.Some? && Eligible(s, chosen.value, now) {
        TouchKeeps(s, chosen.value, TakeRow(s.tasks[chosen.value], worker, leaseSeconds, now));
      }
    }
  }

  /** Replacing a started row by a started one that did not, and does not, count as succeeded. */
  lemma TouchKeeps(db: Db, id: TaskId, r: Row)
    requires Inv(db) && id in db.tasks && StartedRow(db.tasks[id].state) && StartedRow(r.state)
    requires !db.tasks[id].state.SucceededRow? && !r.state.SucceededRow?
    requires r.maxAttempts == db.tasks[id].maxAttempts && 0 <= r.attempt <= r.maxAttempts
    requires (r.owner.Some? <==> r.expires.Some?) && (r.owner.Some? <==> r.state.RunningRow?)
    requires r.state.ReadyRow? ==> r.attempt < r.maxAttempts
    ensures Inv(db.(tasks := db.tasks[id := r]))
  {
    var v := db.(tasks := db.tasks[id := r]);
    forall other | other in v.tasks ensures RowOk(v, other) {
      assert RowOk(db, other);
      assert RowOk(db, id);
    }
    forall run | run in v.runs ensures HasDefaults(v, run) { assert HasDefaults(db, run); }
  }

  /** Changing a run state between states that are not cancelled. */
  lemma RunKeeps(db: Db, run: Name, state: RunState)
    requires Inv(db) && run in db.runs
    requires db.runs[run].CancelledRun? <==> state.CancelledRun?
    ensures Inv(db.(runs := db.runs[run := state]))
  {
    var v := db.(runs := db.runs[run := state]);
    forall id | id in v.tasks ensures RowOk(v, id) { assert RowOk(db, id); }
    forall other | other in v.runs ensures HasDefaults(v, other) { assert HasDefaults(db, other); }
  }

  lemma OwnedRow(db: Db, id: TaskId, worker: Name, now: int)
    requires Inv(db) && Owns(db, id, worker, now)
    ensures RowOk(db, id) && id.run in db.runs && db.tasks[id].state.RunningRow? && db.tasks[id].owner.Some?
  {
    assert RowOk(db, id);
  }

  lemma FinishKeeps(db: Db, id: TaskId, worker: Name, now: int, state: RowState)
    requires Inv(db) && Owns(db, id, worker, now)
    requires state.BlockedRow? || state == RetryState(db.tasks[id])
    ensures Inv(FinishStep(db, id, state))
  {
    hide Inv, RowOk;
    OwnedRow(db, id, worker, now);
    TouchKeeps(db, id, Unleased(db.tasks[id], state));
    RunKeeps(db.(tasks := db.tasks[id := Unleased(db.tasks[id], state)]), id.run, Block(db.runs[id.run]));
  }

  ghost function Completed(db: Db, id: TaskId): Db
    requires id in db.tasks && id.run in db.runs
  {
    var done := db.tasks[id := Unleased(db.tasks[id], SucceededRow)];
    Db(if !db.runs[id.run].CancelledRun? then Promote(done, id.run) else done, db.runs)
  }

  /** A row after a completion: the completed one, a promoted one, or as it was. */
  lemma CompletedRow(db: Db, id: TaskId, other: TaskId)
    requires id in db.tasks && id.run in db.runs && other in db.tasks
    ensures other in Completed(db, id).tasks
    ensures var done, q := db.tasks[id := Unleased(db.tasks[id], SucceededRow)], Completed(db, id).tasks[other];
            q == if db.runs[id.run].CancelledRun? then done[other] else PromoteRow(done, other, id.run)
  {
    hide PrerequisiteMet, PromoteRow;
  }

  lemma PromotedRow(db: Db, id: TaskId, other: TaskId)
    requires Inv(db) && id in db.tasks && id.run in db.runs && db.tasks[id].state.RunningRow? && other in db.tasks
    ensures var v := Completed(db, id); other in v.tasks && RowOk(v, other)
  {
    hide Completed, Inv;
    CompletedRow(db, id, other);
    assert RowOk(db, id) && RowOk(db, other) by { RowsOk(db, id); RowsOk(db, other); }
    if Prerequisite(other.key).Some? {
      var before := TaskId(other.run, Prerequisite(other.key).value);
      RowsOk(db, before);
      CompletedRow(db, id, before);
    }
    CompletedRuns(db, id);
  }

  lemma RowsOk(db: Db, id: TaskId)
    requires Inv(db) && id in db.tasks
    ensures RowOk(db, id)
  {
  }

  lemma CompletedRuns(db: Db, id: TaskId)
    requires id in db.tasks && id.run in db.runs
    ensures Completed(db, id).runs == db.runs
  {
    hide Promote;
  }

  lemma CompleteKeeps(db: Db, id: TaskId, worker: Name, now: int)
    requires Inv(db) && Owns(db, id, worker, now)
    ensures Inv(CompleteStep(db, id, worker, now))
  {
    hide RowOk, Promote, HasDefaults;
    OwnedRow(db, id, worker, now);
    var done := db.tasks[id := Unleased(db.tasks[id], SucceededRow)];
    var open := !db.runs[id.run].CancelledRun?;
    var v := Db(if open then Promote(done, id.run) else done, db.runs);
    PromoteKeys(done, id.run);
    forall other | other in v.tasks ensures RowOk(v, other) { PromotedRow(db, id, other); }
    forall run | run in v.runs ensures HasDefaults(v, run) { SameKeys(db, v, run); }
    RunKeeps(v, id.run, if db.runs[id.run].Synchronizing? then ReviewReady else db.runs[id.run]);
    assert v.(runs := v.runs[id.run := v.runs[id.run]]) == v;
  }

  lemma PromoteKeys(tasks: Rows, run: Name)
    ensures Promote(tasks, run).Keys == tasks.Keys
  {
  }

  lemma SameKeys(db: Db, v: Db, run: Name)
    requires HasDefaults(db, run) && db.tasks.Keys == v.tasks.Keys
    ensures HasDefaults(v, run)
  {
    assert forall id :: id in db.tasks <==> id in db.tasks.Keys;
  }

  lemma RetryRunKeeps(db: Db, run: Name)
    requires Inv(db) && run in db.runs && (db.runs[run].BlockedRun? || db.runs[run].FailedRun?)
    ensures Inv(Apply(db, RetryRun(run)))
  {
    var v := Apply(db, RetryRun(run));
    forall id | id in v.tasks ensures RowOk(v, id) {
      assert RowOk(db, id);
      if Prerequisite(id.key).Some? {
        assert RowOk(db, TaskId(id.run, Prerequisite(id.key).value));
      }
    }
    forall other | other in v.runs ensures HasDefaults(v, other) { assert HasDefaults(db, other); }
  }

  lemma CancelKeeps(db: Db, run: Name)
    requires Inv(db)
    ensures Inv(Apply(db, CancelRun(run)))
  {
    var v := Apply(db, CancelRun(run));
    forall id | id in v.tasks ensures RowOk(v, id) {
      assert RowOk(db, id);
      if Prerequisite(id.key).Some? {
        assert RowOk(db, TaskId(id.run, Prerequisite(id.key).value));
      }
    }
    forall other | other in v.runs ensures HasDefaults(v, other) { assert HasDefaults(db, other); }
  }

  lemma RequeueKeeps(db: Db, run: Name, key: TaskKey)
    requires Inv(db)
    ensures Inv(Apply(db, Requeue(run, key)))
  {
    var v := Apply(db, Requeue(run, key));
    forall id | id in v.tasks ensures RowOk(v, id) {
      if id in db.tasks { assert RowOk(db, id); }
    }
    forall other | other in v.runs ensures HasDefaults(v, other) { assert HasDefaults(db, other); }
  }

  lemma StepKeepsInv(db: Db, s: Step)
    requires Inv(db)
    ensures Inv(Apply(db, s))
  {
    hide Inv, RowOk, HasDefaults, Promote, InsertDefaults, ClaimStep, CompleteStep, RetryRows, CancelRows;
    match s {
      case CreateRun(run) => CreateKeepsInv(db, run);
      case Claim(worker, leaseSeconds, now, chosen) => ClaimKeeps(db, worker, leaseSeconds, now, chosen);
      case Renew(id, worker, leaseSeconds, now) =>
        if Owns(db, id, worker, now) {
          OwnedRow(db, id, worker, now);
          TouchKeeps(db, id, db.tasks[id].(expires := Some(now + leaseSeconds)));
        }
      case Complete(id, worker, now) => if Owns(db, id, worker, now) { CompleteKeeps(db, id, worker, now); } else { RefusedComplete(db, id, worker, now); }
      case BlockTask(id, worker, now) => if Owns(db, id, worker, now) { FinishKeeps(db, id, worker, now, BlockedRow); }
      case RetryTask(id, worker, now) => if Owns(db, id, worker, now) { FinishKeeps(db, id, worker, now, RetryState(db.tasks[id])); }
      case RetryRun(run) =>
        if run in db.runs && (db.runs[run].BlockedRun? || db.runs[run].FailedRun?) { RetryRunKeeps(db, run); }
      case CancelRun(run) => CancelKeeps(db, run);
      case Requeue(run, key) => RequeueKeeps(db, run, key);
      case RunChange(run, state) =>
        if run in db.runs && !state.CancelledRun? && MayChange(db.runs[run], state) { RunKeeps(db, run, state); }
    }
  }

  lemma CreateKeepsInv(db: Db, run: Name)
    requires Inv(db)
    ensures Inv(Apply(db, CreateRun(run)))
  {
    hide Apply, RowOk, HasDefaults;
    var v := Apply(db, CreateRun(run));
    forall id | id in v.tasks ensures RowOk(v, id) { CreateKeeps(db, run, id); }
    CreateHasDefaults(db, run);
  }

  lemma RefusedComplete(db: Db, id: TaskId, worker: Name, now: int)
    requires !Owns(db, id, worker, now)
    ensures CompleteStep(db, id, worker, now) == db
  {
  }

  /** Every reachable state: leases exactly on running default tasks, attempts in budget,
      started tasks with their prerequisite succeeded, waiting ones without. */
  lemma {:induction false} ReachableInv(steps: seq<Step>)
    ensures Inv(ApplyAll(EMPTY_DB, steps))
  {
    hide Inv, Apply;
    if steps == [] {
      assert Inv(EMPTY_DB) by { EmptyInv(); }
    } else {
      ReachableInv(steps[..|steps| - 1]);
      StepKeepsInv(ApplyAll(EMPTY_DB, steps[..|steps| - 1]), steps[|steps| - 1]);
    }
  }

  lemma EmptyInv()
    ensures Inv(EMPTY_DB)
  {
  }
}
