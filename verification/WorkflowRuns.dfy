/** What holds after any list of workflow commands, refused ones included. */
module WorkflowRuns {
  import opened Names
  import opened Workflow
  import opened Readiness

  predicate Active(s: TaskState) { s.Ready? || Leased(s) }

  predicate Started(s: TaskState) { Active(s) || s.Succeeded? }

  predicate Terminal(s: TaskState) { s.Succeeded? || IsDead(s) }

  /** Leases, attempts and cancellation, as far as one record shows them. */
  ghost predicate RecordOk(r: TaskRecord, cancelled: bool) {
    && (r.owner.Some? <==> Leased(r.state)) && (r.expires.Some? <==> Leased(r.state))
    && 0 <= r.attempt <= r.definition.maxAttempts
    && (r.state.Pending? ==> r.attempt == 0) && (r.state.Ready? ==> r.attempt < r.definition.maxAttempts)
    && (cancelled ==> !r.state.Ready? && !r.state.Running?)
    && (!cancelled ==> !r.state.Cancelled? && !r.state.CancellationRequested?)
  }

  ghost predicate TaskOk(tasks: Table, k: Name, cancelled: bool)
    requires k in tasks
  {
    && RecordOk(tasks[k], cancelled)
    && (Started(tasks[k].state) ==> AllSucceeded(tasks, tasks[k].definition.dependencies))
  }

  ghost function Claims(events: seq<Event>): nat {
    if events == [] then 0
    else Claims(events[..|events| - 1]) + if events[|events| - 1].body.TaskClaimed? then 1 else 0
  }

  ghost function Attempts(tasks: Table, order: seq<Name>): int {
    if order == [] then 0
    else
      var k := order[|order| - 1];
      Attempts(tasks, order[..|order| - 1]) + if k in tasks then tasks[k].attempt else 0
  }

  ghost function Budget(tasks: Table, order: seq<Name>): int {
    if order == [] then 0
    else
      var k := order[|order| - 1];
      Budget(tasks, order[..|order| - 1]) + if k in tasks then tasks[k].definition.maxAttempts else 0
  }

  ghost predicate Numbered(events: seq<Event>) {
    forall i :: 0 <= i < |events| ==> events[i].cursor == i + 1
  }

  ghost predicate Sound(w: Flow) {
    && Ordered(w.tasks, w.order)
    && (forall k :: k in w.tasks ==> TaskOk(w.tasks, k, w.cancelled))
    && Numbered(w.events)
    && Claims(w.events) == Attempts(w.tasks, w.order)
  }

  ghost predicate Inv(w: Flow) {
    Sound(w) && Stable(w.tasks, w.cancelled)
  }

  // ---- sums -----------------------------------------------------------------------------------

  lemma {:induction false} AttemptsUnchanged(a: Table, b: Table, order: seq<Name>)
    requires forall k :: k in order ==> (k in a <==> k in b) && (k in a ==> a[k].attempt == b[k].attempt)
    ensures Attempts(a, order) == Attempts(b, order)
  {
    if order != [] { AttemptsUnchanged(a, b, order[..|order| - 1]); }
  }

  lemma {:induction false} AttemptsTouch(tasks: Table, order: seq<Name>, k: Name, r: TaskRecord)
    requires k in tasks && forall i, j :: 0 <= i < j < |order| ==> order[i] != order[j]
    ensures Attempts(tasks[k := r], order) == Attempts(tasks, order) + if k in order then r.attempt - tasks[k].attempt else 0
  {
    if order != [] {
      var rest, last := order[..|order| - 1], order[|order| - 1];
      assert order == rest + [last];
      if last == k {
        assert k !in rest;
        AttemptsUnchanged(tasks, tasks[k := r], rest);
      } else {
        AttemptsTouch(tasks, rest, k, r);
      }
    }
  }

  lemma {:induction false} WithinBudget(tasks: Table, order: seq<Name>)
    requires forall k :: k in order && k in tasks ==> tasks[k].attempt <= tasks[k].definition.maxAttempts
    ensures Attempts(tasks, order) <= Budget(tasks, order)
  {
    if order != [] { WithinBudget(tasks, order[..|order| - 1]); }
  }

  // ---- single steps keep soundness -----------------------------------------------------------------

  lemma TouchKeepsTasks(w: Flow, k: Name, r: TaskRecord, j: Name)
    requires Sound(w) && k in w.tasks && Active(w.tasks[k].state) && j in w.tasks
    requires r.definition == w.tasks[k].definition && RecordOk(r, w.cancelled)
    ensures TaskOk(w.tasks[k := r], j, w.cancelled)
  {
    assert TaskOk(w.tasks, k, w.cancelled) && TaskOk(w.tasks, j, w.cancelled);
  }

  /** Changing one active task and logging it. */
  lemma TouchSound(w: Flow, k: Name, r: TaskRecord, body: EventBody, at: int)
    requires Sound(w) && k in w.tasks && Active(w.tasks[k].state)
    requires r.definition == w.tasks[k].definition && RecordOk(r, w.cancelled)
    requires r.attempt == w.tasks[k].attempt + if body.TaskClaimed? then 1 else 0
    ensures Sound(Emit(w.(tasks := w.tasks[k := r]), body, at))
  {
    hide TaskOk, RecordOk;
    OrderedByDefinitions(w.tasks, w.tasks[k := r], w.order);
    forall j | j in w.tasks ensures TaskOk(w.tasks[k := r], j, w.cancelled) { TouchKeepsTasks(w, k, r, j); }
    AttemptsTouch(w.tasks, w.order, k, r);
  }

  lemma DecideOk(a: Table, b: Table, k: Name, cancelled: bool)
    requires SameDefinitions(a, b) && Settles(a, b, cancelled) && k in a && TaskOk(a, k, cancelled)
    ensures TaskOk(b, k, cancelled)
    ensures b[k].attempt == a[k].attempt
  {
    assert b[k] == Decide(a[k], b, cancelled);
    if Started(a[k].state) {
      forall d | d in a[k].definition.dependencies ensures d in b && b[d].state.Succeeded? {
        assert b[d] == Decide(a[d], b, cancelled);
      }
    }
  }

  lemma RefreshSound(w: Flow)
    requires Sound(w)
    ensures Inv(Refreshed(w))
    ensures Refreshed(w).order == w.order && Refreshed(w).events == w.events && Refreshed(w).cancelled == w.cancelled
    ensures Settles(w.tasks, Refreshed(w).tasks, w.cancelled) && SameDefinitions(w.tasks, Refreshed(w).tasks)
  {
    hide TaskOk, Refresh;
    var r := Refresh(w.tasks, w.order, w.cancelled);
    RefreshSettles(w.tasks, w.order, w.cancelled);
    RefreshStable(w.tasks, w.order, w.cancelled);
    forall k | k in r ensures TaskOk(r, k, w.cancelled) && r[k].attempt == w.tasks[k].attempt {
      DecideOk(w.tasks, r, k, w.cancelled);
    }
    AttemptsUnchanged(w.tasks, r, w.order);
  }

  lemma ExpireOneSound(w: Flow, k: Name, now: int)
    requires Sound(w)
    ensures Sound(ExpireOne(w, k, now))
    ensures ExpireOne(w, k, now).order == w.order && ExpireOne(w, k, now).cancelled == w.cancelled
  {
    if k in w.tasks && LeaseIsOver(w.tasks[k], now) {
      assert TaskOk(w.tasks, k, w.cancelled);
      var v := ExpireOne(w, k, now);
      TouchSound(w, k, v.tasks[k], v.events[|w.events|].body, now);
    }
  }

  lemma {:induction false} ExpireSound(w: Flow, n: nat, now: int)
    requires Sound(w) && n <= |w.order|
    ensures Sound(ExpireTo(w, n, now))
    ensures ExpireTo(w, n, now).order == w.order && ExpireTo(w, n, now).cancelled == w.cancelled
  {
    hide Sound, ExpireOne;
    if n > 0 {
      ExpireSound(w, n - 1, now);
      ExpireOneSound(ExpireTo(w, n - 1, now), w.order[n - 1], now);
    }
  }

  lemma {:induction false} FirstReadyMeaning(w: Flow, i: nat)
    requires i <= |w.order|
    ensures var r := FirstReady(w, i);
            && (r < |w.order| ==> w.order[r] in w.tasks && w.tasks[w.order[r]].state.Ready?)
            && forall j :: i <= j < r && w.order[j] in w.tasks ==> !w.tasks[w.order[j]].state.Ready?
    decreases |w.order| - i
  {
    if i < |w.order| && !(w.order[i] in w.tasks && w.tasks[w.order[i]].state.Ready?) {
      FirstReadyMeaning(w, i + 1);
    }
  }

  /** A claim expires, settles, and then takes a ready task if there is one. */
  lemma ClaimParts(w: Flow, now: int)
    requires Sound(w)
    ensures var v := Refreshed(Expire(w, now));
            && Inv(v) && v.order == w.order && v.cancelled == w.cancelled
            && (match Claimable(w, now)
                case Some(k) => k in v.tasks && v.tasks[k].state.Ready?
                case None => forall k :: k in v.tasks ==> !v.tasks[k].state.Ready?)
  {
    hide Sound, ExpireTo, Refreshed;
    ExpireSound(w, |w.order|, now);
    RefreshSound(Expire(w, now));
    var v := Refreshed(Expire(w, now));
    FirstReadyMeaning(v, 0);
    assert Ordered(v.tasks, v.order) by { InvOrdered(v); }
  }

  lemma InvOrdered(w: Flow)
    requires Inv(w)
    ensures Ordered(w.tasks, w.order)
  {
  }

  lemma {:induction false} CancelPointwise(tasks: Table, order: seq<Name>, n: nat)
    requires n <= |order| && forall i, j :: 0 <= i < j < |order| ==> order[i] != order[j]
    ensures var t := CancelTo(tasks, order, n);
            && t.Keys == tasks.Keys
            && forall k :: k in tasks ==> t[k] == if k in order[..n] then CancelRecord(tasks[k]) else tasks[k]
  {
    hide CancelRecord;
    if n > 0 {
      CancelPointwise(tasks, order, n - 1);
      assert order[..n] == order[..n - 1] + [order[n - 1]];
      assert order[n - 1] !in order[..n - 1];
    }
  }

  lemma CancelledTable(w: Flow) returns (t: Table)
    requires Sound(w)
    ensures t == CancelTo(w.tasks, w.order, |w.order|) && SameDefinitions(w.tasks, t)
    ensures forall k :: k in t ==> t[k] == CancelRecord(w.tasks[k]) && TaskOk(t, k, true)
  {
    hide CancelTo, TaskOk, CancelRecord, Attempts, Claims;
    t := CancelTo(w.tasks, w.order, |w.order|);
    CancelPointwise(w.tasks, w.order, |w.order|);
    assert w.order[..|w.order|] == w.order;
    forall k | k in t ensures TaskOk(t, k, true) && t[k].definition == w.tasks[k].definition {
      CancelTaskOk(w, t, k);
    }
  }

  lemma CancelTaskOk(w: Flow, t: Table, k: Name)
    requires Sound(w) && t.Keys == w.tasks.Keys && k in t
    requires forall j :: j in t ==> t[j] == CancelRecord(w.tasks[j])
    ensures TaskOk(t, k, true) && t[k].definition == w.tasks[k].definition
  {
    hide Ordered;
    assert TaskOk(w.tasks, k, w.cancelled);
  }

  lemma CancelSound(w: Flow, now: int)
    requires Sound(w)
    ensures Inv(Apply(w, RequestCancel(now)))
  {
    hide Apply, CancelTo, TaskOk, DependsOnEarlier;
    CancelUnfold(w, now);
    var t := CancelledTable(w);
    OrderedByDefinitions(w.tasks, t, w.order);
    AttemptsUnchanged(w.tasks, t, w.order);
    forall k | k in t ensures t[k] == Decide(t[k], t, true) {
      DecideSettled(t[k], t, true);
    }
  }

  // ---- commands keep the invariant -----------------------------------------------------------------

  lemma AddOrdered(w: Flow, d: TaskDefinition)
    requires Ordered(w.tasks, w.order) && d.key !in w.tasks && forall k :: k in d.dependencies ==> k in w.tasks
    ensures Ordered(w.tasks[d.key := NewRecord(d)], w.order + [d.key])
  {
    var order, tasks := w.order + [d.key], w.tasks[d.key := NewRecord(d)];
    forall i | 0 <= i < |order| ensures DependsOnEarlier(tasks, order, i) {
      if i < |w.order| {
        assert DependsOnEarlier(w.tasks, w.order, i);
        assert order[..i] == w.order[..i];
      } else {
        assert order[..i] == w.order;
      }
    }
  }

  lemma AddTaskOk(w: Flow, d: TaskDefinition, k: Name)
    requires Sound(w) && d.key !in w.tasks && (k in w.tasks || k == d.key)
    ensures TaskOk(w.tasks[d.key := NewRecord(d)], k, w.cancelled)
  {
    if k != d.key { assert TaskOk(w.tasks, k, w.cancelled); }
  }

  lemma AddAttempts(w: Flow, d: TaskDefinition)
    requires Ordered(w.tasks, w.order) && d.key !in w.tasks
    ensures Attempts(w.tasks[d.key := NewRecord(d)], w.order + [d.key]) == Attempts(w.tasks, w.order)
  {
    hide DependsOnEarlier;
    var order, tasks := w.order + [d.key], w.tasks[d.key := NewRecord(d)];
    assert order[..|order| - 1] == w.order;
    AttemptsUnchanged(w.tasks, tasks, w.order);
  }

  lemma AddSound(w: Flow, d: TaskDefinition)
    requires Sound(w) && d.key !in w.tasks && forall k :: k in d.dependencies ==> k in w.tasks
    ensures Sound(w.(order := w.order + [d.key], tasks := w.tasks[d.key := NewRecord(d)]))
  {
    hide TaskOk, Ordered, Attempts, Claims, Numbered;
    var tasks := w.tasks[d.key := NewRecord(d)];
    AddOrdered(w, d);
    forall k | k in tasks ensures TaskOk(tasks, k, w.cancelled) { AddTaskOk(w, d, k); }
    AddAttempts(w, d);
  }

  /** Every command keeps the invariant. */
  lemma ApplyKeepsInv(w: Flow, c: Command)
    requires Inv(w)
    ensures Inv(Apply(w, c))
  {
    hide Refresh, ExpireTo, TaskOk, Ordered, Stable, Claimable, CancelTo, Attempts, Claims;
    if Refusal(w, c).None? {
      match c {
        case AddTask(d, now) =>
          AddSound(w, d);
          RefreshSound(w.(order := w.order + [d.key], tasks := w.tasks[d.key := NewRecord(d)]));
          EmitInv(Refreshed(w.(order := w.order + [d.key], tasks := w.tasks[d.key := NewRecord(d)])), TaskCreated(d.key), now);
        case ClaimReady(worker, now) =>
          ClaimParts(w, now);
          var v := Refreshed(Expire(w, now));
          if Claimable(w, now).Some? { TakeInv(v, Claimable(w, now).value, worker, now); }
        case Heartbeat(k, worker, _, now) => HeartbeatInv(w, k, worker, now);
        case Succeed(k, worker, _, now) =>
          FinishSound(w, k, Release(w.tasks[k], CompletionState(w)), TaskCompleted(k, CompletionState(w)), now);
        case Fail(k, worker, failure, message, _, now) =>
          var s := FailureState(w, w.tasks[k], failure);
          FinishSound(w, k, Release(w.tasks[k], s).(lastError := Some(Reported(message))), TaskFailed(k, failure, s, message), now);
        case RequestCancel(now) => CancelSound(w, now);
      }
    }
  }

  lemma EmitInv(w: Flow, body: EventBody, at: int)
    requires Inv(w) && !body.TaskClaimed?
    ensures Inv(Emit(w, body, at))
  {
  }

  lemma TakeInv(w: Flow, k: Name, worker: Name, now: int)
    requires Inv(w) && k in w.tasks && w.tasks[k].state.Ready?
    ensures Inv(Take(w, k, worker, now))
  {
    assert TaskOk(w.tasks, k, w.cancelled);
    var r := Take(w, k, worker, now).tasks[k];
    TouchSound(w, k, r, TaskClaimed(k, worker, r.attempt), now);
    StableTouch(w.tasks, w.order, w.cancelled, k, r);
  }

  lemma HeartbeatInv(w: Flow, k: Name, worker: Name, now: int)
    requires Inv(w) && k in w.tasks && Leased(w.tasks[k].state)
    ensures Inv(Emit(w.(tasks := w.tasks[k := w.tasks[k].(expires := Some(now + w.leaseSeconds))]), LeaseRenewed(k, worker), now))
  {
    assert TaskOk(w.tasks, k, w.cancelled);
    var r := w.tasks[k].(expires := Some(now + w.leaseSeconds));
    TouchSound(w, k, r, LeaseRenewed(k, worker), now);
    StableTouch(w.tasks, w.order, w.cancelled, k, r);
  }

  lemma FinishSound(w: Flow, k: Name, r: TaskRecord, body: EventBody, now: int)
    requires Inv(w) && k in w.tasks && Leased(w.tasks[k].state) && !body.TaskClaimed?
    requires r.definition == w.tasks[k].definition && r.attempt == w.tasks[k].attempt && r.owner.None? && r.expires.None?
    requires Terminal(r.state) || (r.state.Ready? && MayRetry(r, w.cancelled))
    requires r.state.Cancelled? ==> w.cancelled
    ensures Inv(Refreshed(Emit(w.(tasks := w.tasks[k := r]), body, now)))
  {
    assert TaskOk(w.tasks, k, w.cancelled);
    TouchSound(w, k, r, body, now);
    RefreshSound(Emit(w.(tasks := w.tasks[k := r]), body, now));
  }

  /** The invariant holds in every reachable state. */
  lemma {:induction false} ReachableInv(leaseSeconds: int, commands: seq<Command>)
    ensures Inv(RunCommands(leaseSeconds, commands))
  {
    if commands == [] {
    } else {
      hide Inv, Apply;
      ReachableInv(leaseSeconds, commands[..|commands| - 1]);
      ApplyKeepsInv(RunCommands(leaseSeconds, commands[..|commands| - 1]), commands[|commands| - 1]);
    }
  }

}
