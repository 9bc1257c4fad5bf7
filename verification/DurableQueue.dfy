/** The durable task queue shared by any number of workers: each database transaction is
    one atomic step over the task table, the run states and the database clock. */
module DurableQueue {
  import opened Names

  datatype TaskKey = Preflight | SynchronizeSources | CollectEvidence | ReconcileTask
                   | ApplyApprovedActions | SendRecoveryRequest

  datatype TaskId = TaskId(run: Name, key: TaskKey)

  datatype RowState = PendingRow | ReadyRow | RunningRow | SucceededRow | BlockedRow | FailedRow | CancelledRow

  datatype Row = Row(state: RowState, attempt: int, maxAttempts: int, owner: Option<Name>, expires: Option<int>)

  /** `OtherRun` stands for the review and action states this model only passes through. */
  datatype RunState = Synchronizing | ReviewReady | BlockedRun | FailedRun | ApprovedRun | CancelledRun | OtherRun

  type Rows = map<TaskId, Row>

  datatype Db = Db(tasks: Rows, runs: map<Name, RunState>)

  // ---- the four tasks of a run ------------------------------------------------------------------

  predicate IsDefault(key: TaskKey) { !key.ApplyApprovedActions? && !key.SendRecoveryRequest? }

  function Prerequisite(key: TaskKey): Option<TaskKey> {
    match key
    case SynchronizeSources => Some(Preflight)
    case CollectEvidence => Some(SynchronizeSources)
    case ReconcileTask => Some(CollectEvidence)
    case _ => None
  }

  /** No prerequisite row is in a state other than succeeded. */
  predicate PrerequisiteMet(tasks: Rows, id: TaskId) {
    match Prerequisite(id.key)
    case None => true
    case Some(key) => TaskId(id.run, key) in tasks ==> tasks[TaskId(id.run, key)].state.SucceededRow?
  }

  // ---- set-based updates -----------------------------------------------------------------------------

  predicate LeasePassed(r: Row, now: int) { r.expires.Some? && r.expires.value < now }

  predicate LeaseLive(r: Row, now: int) { r.expires.Some? && r.expires.value > now }

  predicate Exhausted(r: Row, now: int) {
    r.state.RunningRow? && LeasePassed(r, now) && r.attempt >= r.maxAttempts
  }

  function Unleased(r: Row, state: RowState): Row {
    r.(state := state, owner := None, expires := None)
  }

  function SweepRow(r: Row, now: int): Row {
    if Exhausted(r, now) then Unleased(r, FailedRow) else r
  }

  function SweepRows(tasks: Rows, now: int): Rows {
    map id | id in tasks :: SweepRow(tasks[id], now)
  }

  predicate RunExhausted(tasks: Rows, run: Name, now: int) {
    exists id :: id in tasks && id.run == run && Exhausted(tasks[id], now)
  }

  function Block(s: RunState): RunState {
    if s.ApprovedRun? || s.CancelledRun? then s else BlockedRun
  }

  function SweepRuns(db: Db, now: int): map<Name, RunState> {
    map run | run in db.runs :: if RunExhausted(db.tasks, run, now) then Block(db.runs[run]) else db.runs[run]
  }

  predicate Eligible(db: Db, id: TaskId, now: int) {
    && id in db.tasks && id.run in db.runs && !db.runs[id.run].CancelledRun?
    && db.tasks[id].attempt < db.tasks[id].maxAttempts
    && (|| (db.tasks[id].state.ReadyRow? && (db.tasks[id].expires.None? || LeasePassed(db.tasks[id], now)))
        || (db.tasks[id].state.RunningRow? && LeasePassed(db.tasks[id], now)))
  }

  predicate Owns(db: Db, id: TaskId, worker: Name, now: int) {
    id in db.tasks && db.tasks[id].state.RunningRow? && db.tasks[id].owner == Some(worker) && LeaseLive(db.tasks[id], now)
  }

  function PromoteRow(tasks: Rows, id: TaskId, run: Name): Row
    requires id in tasks
  {
    if id.run == run && tasks[id].state.PendingRow? && PrerequisiteMet(tasks, id)
    then tasks[id].(state := ReadyRow) else tasks[id]
  }

  function Promote(tasks: Rows, run: Name): Rows {
    map id | id in tasks :: PromoteRow(tasks, id, run)
  }

  predicate AllSucceededIn(tasks: Rows, run: Name) {
    forall id :: id in tasks && id.run == run ==> tasks[id].state.SucceededRow?
  }

  function RetryRow(tasks: Rows, id: TaskId, run: Name): Row
    requires id in tasks
  {
    if id.run == run && (tasks[id].state.BlockedRow? || tasks[id].state.FailedRow?) && PrerequisiteMet(tasks, id)
    then Unleased(tasks[id], ReadyRow).(attempt := 0) else tasks[id]
  }

  function RetryRows(tasks: Rows, run: Name): Rows {
    map id | id in tasks :: RetryRow(tasks, id, run)
  }

  function CancelRow(id: TaskId, r: Row, run: Name): Row {
    if id.run == run && (r.state.PendingRow? || r.state.ReadyRow?) then Unleased(r, CancelledRow) else r
  }

  function CancelRows(tasks: Rows, run: Name): Rows {
    map id | id in tasks :: CancelRow(id, tasks[id], run)
  }

  function NewRow(key: TaskKey): Row {
    Row(if Prerequisite(key).None? then ReadyRow else PendingRow, 0, 3, None, None)
  }

  function Insert(tasks: Rows, run: Name, key: TaskKey): Rows {
    if TaskId(run, key) in tasks then tasks else tasks[TaskId(run, key) := NewRow(key)]
  }

  function InsertDefaults(tasks: Rows, run: Name): Rows {
    Insert(Insert(Insert(Insert(tasks, run, Preflight), run, SynchronizeSources), run, CollectEvidence), run, ReconcileTask)
  }

  function RequeueRow(r: Row): Row {
    r.(state := if r.state.SucceededRow? || r.state.BlockedRow? || r.state.FailedRow? then ReadyRow else r.state,
       owner := None, expires := None)
  }

  /** The trigger on close_runs: what a change of run state may be. */
  predicate MayChange(from: RunState, to: RunState) {
    && (from.ApprovedRun? || from.CancelledRun? ==> to == from)
    && (to.Synchronizing? ==> from.BlockedRun? || from.FailedRun? || from.Synchronizing?)
  }

  // ---- transactions ---------------------------------------------------------------------------------

  /** One transaction. A claim's `chosen` is the row the locking query returned, if any;
      `RunChange` is any other update of the run state that the trigger lets through. */
  datatype Step =
    | CreateRun(run: Name)
    | Claim(worker: Name, leaseSeconds: int, now: int, chosen: Option<TaskId>)
    | Renew(id: TaskId, worker: Name, leaseSeconds: int, now: int)
    | Complete(id: TaskId, worker: Name, now: int)
    | BlockTask(id: TaskId, worker: Name, now: int)
    | RetryTask(id: TaskId, worker: Name, now: int)
    | RetryRun(run: Name)
    | CancelRun(run: Name)
    | Requeue(run: Name, key: TaskKey)
    | RunChange(run: Name, state: RunState)

  predicate ValidLease(worker: Name, leaseSeconds: int) {
    worker.text != "" && 1 <= leaseSeconds <= 900
  }

  function Swept(db: Db, now: int): Db {
    Db(SweepRows(db.tasks, now), SweepRuns(db, now))
  }

  function TakeRow(r: Row, worker: Name, leaseSeconds: int, now: int): Row {
    r.(state := RunningRow, owner := Some(worker), expires := Some(now + leaseSeconds), attempt := r.attempt + 1)
  }

  function ClaimStep(db: Db, worker: Name, leaseSeconds: int, now: int, chosen: Option<TaskId>): Db {
    if !ValidLease(worker, leaseSeconds) then db
    else
      var s := Swept(db, now);
      if chosen.Some? && Eligible(s, chosen.value, now)
      then s.(tasks := s.tasks[chosen.value := TakeRow(s.tasks[chosen.value], worker, leaseSeconds, now)])
      else s
  }

  function CompleteStep(db: Db, id: TaskId, worker: Name, now: int): Db {
    if !Owns(db, id, worker, now) then db
    else
      var done := db.tasks[id := Unleased(db.tasks[id], SucceededRow)];
      var open := id.run in db.runs && !db.runs[id.run].CancelledRun?;
      var tasks := if open then Promote(done, id.run) else done;
      Db(tasks, if AllSucceededIn(tasks, id.run) && id.run in db.runs && db.runs[id.run].Synchronizing?
                then db.runs[id.run := ReviewReady] else db.runs)
  }

  function BlockRunOf(runs: map<Name, RunState>, run: Name): map<Name, RunState> {
    if run in runs then runs[run := Block(runs[run])] else runs
  }

  function FinishStep(db: Db, id: TaskId, state: RowState): Db
    requires id in db.tasks
  {
    Db(db.tasks[id := Unleased(db.tasks[id], state)],
       if state.ReadyRow? then db.runs else BlockRunOf(db.runs, id.run))
  }

  function RetryState(r: Row): RowState {
    if r.attempt < r.maxAttempts then ReadyRow else FailedRow
  }

  function Apply(db: Db, s: Step): Db {
    match s
    case CreateRun(run) =>
      Db(InsertDefaults(db.tasks, run), if run in db.runs then db.runs else db.runs[run := Synchronizing])
    case Claim(worker, leaseSeconds, now, chosen) => ClaimStep(db, worker, leaseSeconds, now, chosen)
    case Renew(id, worker, leaseSeconds, now) =>
      if ValidLease(worker, leaseSeconds) && Owns(db, id, worker, now)
      then db.(tasks := db.tasks[id := db.tasks[id].(expires := Some(now + leaseSeconds))]) else db
    case Complete(id, worker, now) => CompleteStep(db, id, worker, now)
    case BlockTask(id, worker, now) => if Owns(db, id, worker, now) then FinishStep(db, id, BlockedRow) else db
    case RetryTask(id, worker, now) =>
      if Owns(db, id, worker, now) then FinishStep(db, id, RetryState(db.tasks[id])) else db
    case RetryRun(run) =>
      if run in db.runs && (db.runs[run].BlockedRun? || db.runs[run].FailedRun?)
      then Db(RetryRows(db.tasks, run), db.runs[run := Synchronizing]) else db
    case CancelRun(run) =>
      if run in db.runs && MayChange(db.runs[run], CancelledRun)
      then Db(CancelRows(db.tasks, run), db.runs[run := CancelledRun]) else db
    case Requeue(run, key) =>
      if run !in db.runs || IsDefault(key) then db
      else
        var id := TaskId(run, key);
        db.(tasks := db.tasks[id := if id in db.tasks then RequeueRow(db.tasks[id]) else NewRow(key)])
    case RunChange(run, state) =>
      if run in db.runs && !state.CancelledRun? && MayChange(db.runs[run], state)
      then db.(runs := db.runs[run := state]) else db
  }

  function ApplyAll(db: Db, steps: seq<Step>): Db {
    if steps == [] then db else Apply(ApplyAll(db, steps[..|steps| - 1]), steps[|steps| - 1])
  }

  const EMPTY_DB := Db(map[], map[])

  // ---- the store ---------------------------------------------------------------------------------------

  class TaskStore {
    var tasks: Rows
    var runs: map<Name, RunState>

    ghost function Contents(): Db
      reads this
    {
      Db(tasks, runs)
    }

    constructor ()
      ensures Contents() == EMPTY_DB
    {
      tasks, runs := map[], map[];
    }

    method EnsureDefaultTasks(run: Name)
      modifies this`tasks
      ensures tasks == InsertDefaults(old(tasks), run)
    {
      var keys := [Preflight, SynchronizeSources, CollectEvidence, ReconcileTask];
      for n := 0 to 4
        invariant n == 0 ==> tasks == old(tasks)
        invariant n == 1 ==> tasks == Insert(old(tasks), run, Preflight)
        invariant n == 2 ==> tasks == Insert(Insert(old(tasks), run, Preflight), run, SynchronizeSources)
        invariant n == 3 ==> tasks == Insert(Insert(Insert(old(tasks), run, Preflight), run, SynchronizeSources), run, CollectEvidence)
        invariant n == 4 ==> tasks == InsertDefaults(old(tasks), run)
      {
        var id := TaskId(run, keys[n]);
        if id !in tasks {
          tasks := tasks[id := Row(if Prerequisite(keys[n]).None? then ReadyRow else PendingRow, 0, 3, None, None)];
        }
      }
    }

    method CreateCloseRun(run: Name)
      modifies this
      ensures Contents() == Apply(old(Contents()), CreateRun(run))
    {
      if run !in runs {
        runs := runs[run := Synchronizing];
      }
      EnsureDefaultTasks(run);
    }

    method ClaimNextTask(worker: Name, leaseSeconds: int, now: int, chosen: Option<TaskId>) returns (claimed: Option<TaskId>)
      modifies this
      ensures Contents() == Apply(old(Contents()), Claim(worker, leaseSeconds, now, chosen))
      ensures claimed.Some? ==>
                && chosen == claimed && claimed.value in tasks && Owns(Contents(), claimed.value, worker, now)
                && claimed.value in old(tasks) && tasks[claimed.value].attempt == old(tasks)[claimed.value].attempt + 1
      ensures claimed.None? && ValidLease(worker, leaseSeconds) && chosen.Some? ==> !Eligible(Contents(), chosen.value, now)
    {
      if !ValidLease(worker, leaseSeconds) {
        return None;
      }
      runs, tasks := SweepRuns(Db(tasks, runs), now), SweepRows(tasks, now);
      if chosen.None? || !Eligible(Db(tasks, runs), chosen.value, now) {
        return None;
      }
      var row := tasks[chosen.value];
      tasks := tasks[chosen.value := row.(state := RunningRow, owner := Some(worker), expires := Some(now + leaseSeconds),
                                          attempt := row.attempt + 1)];
      return chosen;
    }

    method RenewTaskLease(id: TaskId, worker: Name, leaseSeconds: int, now: int) returns (renewed: bool)
      modifies this`tasks
      ensures Contents() == Apply(old(Contents()), Renew(id, worker, leaseSeconds, now))
      ensures renewed <==> ValidLease(worker, leaseSeconds) && Owns(old(Contents()), id, worker, now)
    {
      if !ValidLease(worker, leaseSeconds) || !Owns(Db(tasks, runs), id, worker, now) {
        return false;
      }
      tasks := tasks[id := tasks[id].(expires := Some(now + leaseSeconds))];
      return true;
    }

    method CompleteTask(id: TaskId, worker: Name, now: int) returns (accepted: bool)
      modifies this
      ensures Contents() == Apply(old(Contents()), Complete(id, worker, now))
      ensures accepted <==> Owns(old(Contents()), id, worker, now)
    {
      if !Owns(Db(tasks, runs), id, worker, now) {
        return false;
      }
      tasks := tasks[id := tasks[id].(state := SucceededRow, owner := None, expires := None)];
      if id.run in runs && runs[id.run] != CancelledRun {
        tasks := Promote(tasks, id.run);
      }
      if AllSucceededIn(tasks, id.run) {
        if id.run in runs && runs[id.run] == Synchronizing {
          runs := runs[id.run := ReviewReady];
        }
      }
      return true;
    }

    method BlockClaimedTask(id: TaskId, worker: Name, now: int) returns (accepted: bool)
      modifies this
      ensures Contents() == Apply(old(Contents()), BlockTask(id, worker, now))
      ensures accepted <==> Owns(old(Contents()), id, worker, now)
    {
      if !Owns(Db(tasks, runs), id, worker, now) {
        return false;
      }
      tasks := tasks[id := tasks[id].(state := BlockedRow, owner := None, expires := None)];
      runs := BlockRunOf(runs, id.run);
      return true;
    }

    method RetryClaimedTask(id: TaskId, worker: Name, now: int) returns (state: Option<RowState>)
      modifies this
      ensures Contents() == Apply(old(Contents()), RetryTask(id, worker, now))
      ensures state == if Owns(old(Contents()), id, worker, now) then Some(RetryState(old(tasks)[id])) else None
    {
      if !Owns(Db(tasks, runs), id, worker, now) {
        return None;
      }
      var row := tasks[id];
      var next := if row.attempt < row.maxAttempts then ReadyRow else FailedRow;
      tasks := tasks[id := row.(state := next, owner := None, expires := None)];
      if next == FailedRow {
        runs := BlockRunOf(runs, id.run);
      }
      return Some(next);
    }

    method RetryCloseRun(run: Name) returns (accepted: bool)
      modifies this
      ensures Contents() == Apply(old(Contents()), RetryRun(run))
      ensures accepted <==> run in old(runs) && (old(runs)[run].BlockedRun? || old(runs)[run].FailedRun?)
    {
      if run !in runs || (runs[run] != BlockedRun && runs[run] != FailedRun) {
        return false;
      }
      tasks := RetryRows(tasks, run);
      runs := runs[run := Synchronizing];
      return true;
    }

    /** The run-state trigger rolls the whole transaction back for an approved run. */
    method CancelCloseRun(run: Name) returns (accepted: bool)
      modifies this
      ensures Contents() == Apply(old(Contents()), CancelRun(run))
      ensures accepted <==> run in old(runs) && old(runs)[run] != ApprovedRun
    {
      if run !in runs || !MayChange(runs[run], CancelledRun) {
        return false;
      }
      tasks := CancelRows(tasks, run);
      runs := runs[run := CancelledRun];
      return true;
    }
  }
}
