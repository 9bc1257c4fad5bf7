/** A run worked to its approval in queue order, and how its queued action then gets stuck. */
module ReviewedRuns {
  import opened Names
  import opened DurableQueue
  import opened DurableQueueTheorems
  import opened QueuedActions

  // ---- claims in queue order -------------------------------------------------------------------------

  /** No other row can be claimed, so the claim takes this one whatever the order of the rows. */
  ghost predicate OnlyChoice(db: Db, id: TaskId, now: int) {
    forall other :: Eligible(Swept(db, now), other, now) ==> other == id
  }

  ghost predicate InOrder(db: Db, s: Step) {
    s.Claim? ==> s.chosen.Some? && OnlyChoice(db, s.chosen.value, s.now)
  }

  /** Every claim takes the only row it can. */
  ghost predicate FollowsTheQueue(steps: seq<Step>) {
    steps == [] || (FollowsTheQueue(steps[..|steps| - 1]) && InOrder(ApplyAll(EMPTY_DB, steps[..|steps| - 1]), steps[|steps| - 1]))
  }

  lemma FollowsThen(steps: seq<Step>, s: Step)
    requires FollowsTheQueue(steps) && InOrder(ApplyAll(EMPTY_DB, steps), s)
    ensures FollowsTheQueue(steps + [s]) && ApplyAll(EMPTY_DB, steps + [s]) == Apply(ApplyAll(EMPTY_DB, steps), s)
  {
    hide Apply, InOrder;
    assert (steps + [s])[..|steps|] == steps;
  }

  // ---- the four default tasks ----------------------------------------------------------------------------

  const WAITING := Row(PendingRow, 0, 3, None, None)
  const READY := Row(ReadyRow, 0, 3, None, None)
  const DONE := Row(SucceededRow, 1, 3, None, None)

  function Held(worker: Name): Row { Row(RunningRow, 1, 3, Some(worker), Some(60)) }

  function KeyAt(i: nat): TaskKey
    requires i < 4
  {
    match i
    case 0 => Preflight
    case 1 => SynchronizeSources
    case 2 => CollectEvidence
    case _ => ReconcileTask
  }

  function RowAt(i: nat, done: nat, current: Row): Row {
    if i < done then DONE else if i == done then current else WAITING
  }

  /** The rows of a run with its first `done` tasks done and the next one as given. */
  function Table(run: Name, done: nat, current: Row): Rows {
    map[TaskId(run, Preflight) := RowAt(0, done, current), TaskId(run, SynchronizeSources) := RowAt(1, done, current),
        TaskId(run, CollectEvidence) := RowAt(2, done, current), TaskId(run, ReconcileTask) := RowAt(3, done, current)]
  }

  function During(run: Name, done: nat, current: Row): Db {
    Db(Table(run, done, current), map[run := Synchronizing])
  }

  lemma CreatedTable(run: Name)
    ensures Apply(EMPTY_DB, CreateRun(run)) == During(run, 0, READY)
  {
  }

  /** With no lease that passed, a sweep changes nothing. */
  lemma NothingSwept(db: Db, now: int)
    requires forall id :: id in db.tasks ==> !Exhausted(db.tasks[id], now)
    ensures Swept(db, now) == db
  {
    hide Exhausted;
    assert SweepRows(db.tasks, now) == db.tasks;
    assert SweepRuns(db, now) == db.runs;
  }

  /** The table has one row that can be claimed. */
  lemma OneToClaim(run: Name, done: nat)
    requires done < 4
    ensures var db, id := During(run, done, READY), TaskId(run, KeyAt(done));
            Eligible(db, id, 0) && forall other :: Eligible(db, other, 0) ==> other == id
  {
  }

  lemma TableTaken(run: Name, done: nat, worker: Name)
    requires done < 4
    ensures var db, id := During(run, done, READY), TaskId(run, KeyAt(done));
            id in db.tasks && db.tasks[id := TakeRow(db.tasks[id], worker, 60, 0)] == Table(run, done, Held(worker))
  {
  }

  lemma NothingHeld(run: Name, done: nat)
    ensures var db := During(run, done, READY); forall id :: id in db.tasks ==> !Exhausted(db.tasks[id], 0)
  {
  }

  lemma ClaimNext(run: Name, done: nat, worker: Name)
    requires done < 4 && worker.text != ""
    ensures var db, id := During(run, done, READY), TaskId(run, KeyAt(done));
            Apply(db, Claim(worker, 60, 0, Some(id))) == During(run, done, Held(worker)) && OnlyChoice(db, id, 0)
  {
    hide Swept, Table, TakeRow, Held, KeyAt, Eligible, Exhausted;
    NothingHeld(run, done);
    NothingSwept(During(run, done, READY), 0);
    OneToClaim(run, done);
    TableTaken(run, done, worker);
  }

  lemma CompleteNext(run: Name, done: nat, worker: Name)
    requires done < 4
    ensures Apply(During(run, done, Held(worker)), Complete(TaskId(run, KeyAt(done)), worker, 0))
         == if done < 3 then During(run, done + 1, READY) else Db(Table(run, 4, READY), map[run := ReviewReady])
  {
    hide AllSucceededIn;
    var db, id := During(run, done, Held(worker)), TaskId(run, KeyAt(done));
    var tasks := Promote(db.tasks[id := Unleased(db.tasks[id], SucceededRow)], run);
    Promoted(run, done, worker);
    if done < 3 {
      assert TaskId(run, KeyAt(done + 1)) in tasks && !AllSucceededIn(tasks, run) by { OneUnfinished(tasks, TaskId(run, KeyAt(done + 1))); }
    } else {
      AllDone(run, READY);
    }
    assert map[run := Synchronizing][run := ReviewReady] == map[run := ReviewReady];
  }

  lemma Promoted(run: Name, done: nat, worker: Name)
    requires done < 4
    ensures var db, id := During(run, done, Held(worker)), TaskId(run, KeyAt(done));
            Promote(db.tasks[id := Unleased(db.tasks[id], SucceededRow)], run) == Table(run, done + 1, READY)
  {
  }

  lemma OneUnfinished(tasks: Rows, id: TaskId)
    requires id in tasks && !tasks[id].state.SucceededRow?
    ensures !AllSucceededIn(tasks, id.run)
  {
  }

  lemma AllDone(run: Name, current: Row)
    ensures AllSucceededIn(Table(run, 4, current), run)
  {
  }

  /** The run is created and its first `n` tasks are claimed and completed. */
  function Worked(run: Name, worker: Name, n: nat): seq<Step>
    requires n <= 4
  {
    if n == 0 then [CreateRun(run)]
    else
      Worked(run, worker, n - 1) + [Claim(worker, 60, 0, Some(TaskId(run, KeyAt(n - 1))))]
      + [Complete(TaskId(run, KeyAt(n - 1)), worker, 0)]
  }

  lemma {:induction false} WorkedTo(run: Name, worker: Name, n: nat)
    requires n <= 4 && worker.text != ""
    ensures FollowsTheQueue(Worked(run, worker, n))
    ensures ApplyAll(EMPTY_DB, Worked(run, worker, n))
         == if n < 4 then During(run, n, READY) else Db(Table(run, 4, READY), map[run := ReviewReady])
  {
    hide Apply, ApplyAll, OnlyChoice, FollowsTheQueue, During, Table;
    if n == 0 {
      var none: seq<Step> := [];
      Nothing();
      CreatedTable(run);
      FollowsThen(none, CreateRun(run));
      assert none + [CreateRun(run)] == [CreateRun(run)];
    } else {
      var before, id := Worked(run, worker, n - 1), TaskId(run, KeyAt(n - 1));
      WorkedTo(run, worker, n - 1);
      ClaimNext(run, n - 1, worker);
      CompleteNext(run, n - 1, worker);
      FollowsThen(before, Claim(worker, 60, 0, Some(id)));
      FollowsThen(before + [Claim(worker, 60, 0, Some(id))], Complete(id, worker, 0));
    }
  }

  lemma Nothing()
    ensures ApplyAll(EMPTY_DB, []) == EMPTY_DB && FollowsTheQueue([])
  {
  }

  /** All four tasks are done, the package is frozen, and the controller approves it. */
  function Reviewed(run: Name, worker: Name): seq<Step> {
    Worked(run, worker, 4) + [RunChange(run, OtherRun)] + [RunChange(run, ApprovedRun)]
  }

  lemma ReviewedRun(run: Name, worker: Name)
    requires worker.text != ""
    ensures FollowsTheQueue(Reviewed(run, worker))
    ensures ApplyAll(EMPTY_DB, Reviewed(run, worker)) == Db(Table(run, 4, READY), map[run := ApprovedRun])
  {
    hide ApplyAll, OnlyChoice, FollowsTheQueue, Table, Worked;
    WorkedTo(run, worker, 4);
    var steps := Worked(run, worker, 4);
    FollowsThen(steps, RunChange(run, OtherRun));
    FollowsThen(steps + [RunChange(run, OtherRun)], RunChange(run, ApprovedRun));
    assert map[run := ReviewReady][run := OtherRun][run := ApprovedRun] == map[run := ApprovedRun];
  }

  // ---- the queued action ------------------------------------------------------------------------------------

  /** Every other row has succeeded. */
  ghost predicate Quiet(db: Db, id: TaskId) {
    forall other :: other in db.tasks && other != id ==> db.tasks[other].state.SucceededRow?
  }

  predicate About(s: Step, id: TaskId) {
    s == Requeue(id.run, id.key) || (s.Claim? && s.chosen == Some(id)) || (s.BlockTask? && s.id == id)
  }

  lemma QuietChoice(db: Db, id: TaskId, now: int)
    requires Quiet(db, id)
    ensures OnlyChoice(db, id, now)
  {
    hide SweepRuns;
    forall other | Eligible(Swept(db, now), other, now) ensures other == id {
      if other in db.tasks { SweptRow(db, other, now); }
    }
  }

  lemma QuietStays(db: Db, s: Step, id: TaskId)
    requires Quiet(db, id) && About(s, id)
    ensures Quiet(Apply(db, s), id)
  {
    hide Apply, PrerequisiteMet, MayChange, RunExhausted, Eligible;
    forall other | other in Apply(db, s).tasks && other != id ensures Apply(db, s).tasks[other].state.SucceededRow? {
      NoOtherRow(db, s, id, other);
      RowAfterExact(db, s, other);
    }
  }

  lemma NoOtherRow(db: Db, s: Step, id: TaskId, other: TaskId)
    requires About(s, id) && other != id && other in Apply(db, s).tasks
    ensures other in db.tasks
  {
    hide PrerequisiteMet, RunExhausted, Exhausted, SweepRuns;
  }

  lemma QuietThen(steps: seq<Step>, s: Step, id: TaskId)
    requires FollowsTheQueue(steps) && Quiet(ApplyAll(EMPTY_DB, steps), id) && About(s, id)
    ensures FollowsTheQueue(steps + [s]) && Quiet(ApplyAll(EMPTY_DB, steps + [s]), id)
  {
    hide Apply, ApplyAll, FollowsTheQueue, OnlyChoice, Quiet;
    if s.Claim? { QuietChoice(ApplyAll(EMPTY_DB, steps), id, s.now); }
    FollowsThen(steps, s);
    QuietStays(ApplyAll(EMPTY_DB, steps), s, id);
  }

  lemma ReviewedIsQuiet(run: Name, worker: Name)
    requires worker.text != ""
    ensures var db, id := ApplyAll(EMPTY_DB, Reviewed(run, worker)), TaskId(run, SendRecoveryRequest);
            Quiet(db, id) && NotYetQueued(db, id)
  {
    hide ApplyAll, Reviewed, FollowsTheQueue;
    ReviewedRun(run, worker);
  }

  lemma ClaimedInOrder(run: Name, worker: Name, leaseSeconds: int, now: int)
    requires worker.text != ""
    ensures var id := TaskId(run, SendRecoveryRequest);
            var steps := Claimed(Reviewed(run, worker), id, worker, leaseSeconds, now);
            FollowsTheQueue(steps) && Quiet(ApplyAll(EMPTY_DB, steps), id)
  {
    hide ApplyAll, Reviewed, FollowsTheQueue, Quiet;
    var id := TaskId(run, SendRecoveryRequest);
    var steps := Reviewed(run, worker);
    ReviewedRun(run, worker);
    ReviewedIsQuiet(run, worker);
    QuietThen(steps, Requeue(run, SendRecoveryRequest), id);
    QuietThen(steps + [Requeue(run, SendRecoveryRequest)], Claim(worker, leaseSeconds, now, Some(id)), id);
  }

  /** An approved run whose recovery request is queued a second time while a worker holds it: the
      request stays running without a lease. Every claim on the way takes the only row it can. */
  lemma SecondRequestOrphansTheFirst(run: Name, worker: Name, now: nat)
    requires worker.text != ""
    ensures var id := TaskId(run, SendRecoveryRequest);
            var steps := Claimed(Reviewed(run, worker), id, worker, 60, now) + [Requeue(id.run, id.key)];
            FollowsTheQueue(steps) && Orphaned(ApplyAll(EMPTY_DB, steps), id)
  {
    hide ApplyAll, Reviewed, FollowsTheQueue, Quiet, Claimed, Orphaned;
    var id := TaskId(run, SendRecoveryRequest);
    ReviewedIsQuiet(run, worker);
    ClaimedInOrder(run, worker, 60, now);
    QuietThen(Claimed(Reviewed(run, worker), id, worker, 60, now), Requeue(run, SendRecoveryRequest), id);
    QueuedWhileRunning(Reviewed(run, worker), id, worker, 60, now);
  }

  /** An approved run whose recovery request is blocked at its last attempt and queued again: the
      request is ready, and out of attempts. */
  lemma LastAttemptIsNotGivenBack(run: Name, worker: Name, now: nat)
    requires worker.text != ""
    ensures var id := TaskId(run, SendRecoveryRequest);
            var steps := UsedUp(Reviewed(run, worker), id, worker, now) + [Requeue(id.run, id.key)];
            FollowsTheQueue(steps) && OutOfAttempts(ApplyAll(EMPTY_DB, steps), id)
  {
    hide ApplyAll, Reviewed, FollowsTheQueue, Quiet, Claimed, OutOfAttempts;
    var id := TaskId(run, SendRecoveryRequest);
    var first := Claimed(Reviewed(run, worker), id, worker, 1, now);
    var again, last := Claim(worker, 1, now + 2, Some(id)), Claim(worker, 1, now + 4, Some(id));
    ReviewedIsQuiet(run, worker);
    ClaimedInOrder(run, worker, 1, now);
    QuietThen(first, again, id);
    QuietThen(first + [again], last, id);
    QuietThen(first + [again] + [last], BlockTask(id, worker, now + 4), id);
    QuietThen(UsedUp(Reviewed(run, worker), id, worker, now), Requeue(run, SendRecoveryRequest), id);
    QueuedAtItsBudget(Reviewed(run, worker), id, worker, now);
  }
}
