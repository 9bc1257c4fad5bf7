/** The in-memory close-run workflow: a task DAG with leases, bounded retries,
    cancellation and an event log. */
module Workflow {
  import opened Names

  datatype TaskState = Pending | Ready | Running | Succeeded | Blocked | Failed | CancellationRequested | Cancelled

  datatype FailureClass = Retryable | BlockedFailure | Fatal

  datatype DefinitionRow = DefinitionRow(key: Name, dependencies: seq<Name>, maxAttempts: int)

  predicate ValidDefinition(d: DefinitionRow) {
    && d.key.text != "" && d.key !in d.dependencies && d.maxAttempts >= 1
    && forall i, j :: 0 <= i < j < |d.dependencies| ==> d.dependencies[i] != d.dependencies[j]
  }

  type TaskDefinition = d: DefinitionRow | ValidDefinition(d)
    witness DefinitionRow(Name("task"), [], 3)

  datatype Note = DependencyFailed | LeaseRetry | LeaseExhausted | LeaseCancelled | Reported(message: Name)

  datatype TaskRecord = TaskRecord(definition: TaskDefinition, state: TaskState, attempt: int,
                                   owner: Option<Name>, expires: Option<int>, lastError: Option<Note>)

  datatype EventBody =
    | TaskCreated(key: Name)
    | TaskClaimed(key: Name, worker: Name, attempt: int)
    | LeaseExpired(key: Name)
    | TaskTerminal(key: Name, state: TaskState)
    | LeaseRenewed(key: Name, worker: Name)
    | TaskCompleted(key: Name, state: TaskState)
    | TaskFailed(key: Name, failure: FailureClass, state: TaskState, message: Name)
    | CancellationAsked

  datatype Event = Event(cursor: int, body: EventBody, at: int)

  datatype WorkflowError = KeyExists | MissingDependency | WorkerRequired | MessageRequired
                         | NotRunning | NotOwner | LeaseOver | BadPage

  datatype Outcome<+T> = Done(value: T) | Refused(error: WorkflowError)

  type Table = map<Name, TaskRecord>

  /** The whole state of a workflow; `order` is the insertion order of the task dictionary. */
  datatype Flow = Flow(leaseSeconds: int, order: seq<Name>, tasks: Table, events: seq<Event>, cancelled: bool)

  function Emit(w: Flow, body: EventBody, at: int): Flow {
    w.(events := w.events + [Event(|w.events| + 1, body, at)])
  }

  function NewRecord(d: TaskDefinition): TaskRecord {
    TaskRecord(d, Pending, 0, None, None, None)
  }

  // ---- readiness ------------------------------------------------------------------------------

  predicate IsDead(s: TaskState) { s.Blocked? || s.Failed? || s.Cancelled? }

  predicate AnyDead(tasks: Table, keys: seq<Name>) {
    exists k :: k in keys && k in tasks && IsDead(tasks[k].state)
  }

  predicate AllSucceeded(tasks: Table, keys: seq<Name>) {
    forall k :: k in keys ==> k in tasks && tasks[k].state.Succeeded?
  }

  /** What readiness makes of one record, given the states of its dependencies. */
  function Decide(r: TaskRecord, tasks: Table, cancelled: bool): TaskRecord {
    if !r.state.Pending? then r
    else if AnyDead(tasks, r.definition.dependencies) then r.(state := Blocked, lastError := Some(DependencyFailed))
    else if AllSucceeded(tasks, r.definition.dependencies) then r.(state := if cancelled then Cancelled else Ready)
    else r
  }

  /** The first `n` steps of one pass in insertion order. */
  function RefreshTo(tasks: Table, order: seq<Name>, n: nat, cancelled: bool): Table
    requires n <= |order|
  {
    if n == 0 then tasks
    else
      var t := RefreshTo(tasks, order, n - 1, cancelled);
      var k := order[n - 1];
      if k in t then t[k := Decide(t[k], t, cancelled)] else t
  }

  function Refresh(tasks: Table, order: seq<Name>, cancelled: bool): Table {
    RefreshTo(tasks, order, |order|, cancelled)
  }

  function Refreshed(w: Flow): Flow {
    w.(tasks := Refresh(w.tasks, w.order, w.cancelled))
  }

  lemma RefreshStep(tasks: Table, order: seq<Name>, n: nat, cancelled: bool)
    requires 0 < n <= |order|
    ensures var t, k := RefreshTo(tasks, order, n - 1, cancelled), order[n - 1];
            RefreshTo(tasks, order, n, cancelled) == if k in t then t[k := Decide(t[k], t, cancelled)] else t
  {
    hide Decide;
  }

  lemma RefreshNone(tasks: Table, order: seq<Name>, cancelled: bool)
    ensures RefreshTo(tasks, order, 0, cancelled) == tasks
  {
  }

  // ---- leases -----------------------------------------------------------------------------------

  predicate Leased(s: TaskState) { s.Running? || s.CancellationRequested? }

  predicate LeaseIsOver(r: TaskRecord, now: int) {
    Leased(r.state) && r.expires.Some? && r.expires.value <= now
  }

  predicate MayRetry(r: TaskRecord, cancelled: bool) {
    r.attempt < r.definition.maxAttempts && !cancelled
  }

  function ExpireOne(w: Flow, k: Name, now: int): Flow {
    if k !in w.tasks || !LeaseIsOver(w.tasks[k], now) then w
    else
      var r := w.tasks[k];
      if MayRetry(r, w.cancelled) then
        Emit(w.(tasks := w.tasks[k := r.(state := Ready, owner := None, expires := None, lastError := Some(LeaseRetry))]),
             LeaseExpired(k), now)
      else
        var s := if w.cancelled then Cancelled else Failed;
        var note := if w.cancelled then LeaseCancelled else LeaseExhausted;
        Emit(w.(tasks := w.tasks[k := r.(state := s, owner := None, expires := None, lastError := Some(note))]),
             TaskTerminal(k, s), now)
  }

  function ExpireTo(w: Flow, n: nat, now: int): Flow
    requires n <= |w.order|
  {
    if n == 0 then w else ExpireOne(ExpireTo(w, n - 1, now), w.order[n - 1], now)
  }

  function Expire(w: Flow, now: int): Flow {
    ExpireTo(w, |w.order|, now)
  }

  /** The position of the first ready task, or the number of tasks. */
  function FirstReady(w: Flow, i: nat): (r: nat)
    requires i <= |w.order|
    ensures i <= r <= |w.order|
    decreases |w.order| - i
  {
    if i == |w.order| then i
    else if w.order[i] in w.tasks && w.tasks[w.order[i]].state.Ready? then i
    else FirstReady(w, i + 1)
  }

  function Take(w: Flow, k: Name, worker: Name, now: int): Flow
    requires k in w.tasks
  {
    var r := w.tasks[k];
    Emit(w.(tasks := w.tasks[k := r.(state := Running, attempt := r.attempt + 1, owner := Some(worker),
                                     expires := Some(now + w.leaseSeconds))]),
         TaskClaimed(k, worker, r.attempt + 1), now)
  }

  /** The task a claim at time `now` would take. */
  function Claimable(w: Flow, now: int): Option<Name> {
    var v := Refreshed(Expire(w, now));
    var i := FirstReady(v, 0);
    if i < |v.order| && v.order[i] in v.tasks then Some(v.order[i]) else None
  }

  function Ownership(w: Flow, k: Name, worker: Name, clock: int): Option<WorkflowError> {
    if k !in w.tasks || !Leased(w.tasks[k].state) then Some(NotRunning)
    else if w.tasks[k].owner != Some(worker) then Some(NotOwner)
    else if w.tasks[k].expires.Some? && w.tasks[k].expires.value <= clock then Some(LeaseOver)
    else None
  }

  function Release(r: TaskRecord, s: TaskState): TaskRecord {
    r.(state := s, owner := None, expires := None)
  }

  function CancelRecord(r: TaskRecord): TaskRecord {
    if r.state.Pending? || r.state.Ready? then r.(state := Cancelled)
    else if r.state.Running? then r.(state := CancellationRequested)
    else r
  }

  function CancelTo(tasks: Table, order: seq<Name>, n: nat): Table
    requires n <= |order|
  {
    if n == 0 then tasks
    else
      var t := CancelTo(tasks, order, n - 1);
      var k := order[n - 1];
      if k in t then t[k := CancelRecord(t[k])] else t
  }

  // ---- commands -----------------------------------------------------------------------------------

  /** `now` stamps the event and the lease; `clock` is the ownership check's own reading. */
  datatype Command =
    | AddTask(definition: TaskDefinition, now: int)
    | ClaimReady(worker: Name, now: int)
    | Heartbeat(key: Name, worker: Name, clock: int, now: int)
    | Succeed(key: Name, worker: Name, clock: int, now: int)
    | Fail(key: Name, worker: Name, failure: FailureClass, message: Name, clock: int, now: int)
    | RequestCancel(now: int)

  function CompletionState(w: Flow): TaskState {
    if w.cancelled then Cancelled else Succeeded
  }

  function FailureState(w: Flow, r: TaskRecord, failure: FailureClass): TaskState {
    if failure.Retryable? && MayRetry(r, w.cancelled) then Ready
    else if failure.BlockedFailure? then Blocked
    else if w.cancelled then Cancelled
    else Failed
  }

  function Refusal(w: Flow, c: Command): Option<WorkflowError> {
    match c
    case AddTask(d, _) =>
      if d.key in w.tasks then Some(KeyExists)
      else if exists k :: k in d.dependencies && k !in w.tasks then Some(MissingDependency)
      else None
    case ClaimReady(worker, _) => if worker.text == "" then Some(WorkerRequired) else None
    case Heartbeat(k, worker, clock, _) => Ownership(w, k, worker, clock)
    case Succeed(k, worker, clock, _) => Ownership(w, k, worker, clock)
    case Fail(k, worker, _, message, clock, _) =>
      if message.text == "" then Some(MessageRequired) else Ownership(w, k, worker, clock)
    case RequestCancel(_) => None
  }

  /** A refused command changes nothing. */
  function Apply(w: Flow, c: Command): Flow {
    if Refusal(w, c).Some? then w
    else
      match c
      case AddTask(d, now) =>
        Emit(Refreshed(w.(order := w.order + [d.key], tasks := w.tasks[d.key := NewRecord(d)])), TaskCreated(d.key), now)
      case ClaimReady(worker, now) =>
        var v := Refreshed(Expire(w, now));
        (match Claimable(w, now)
         case Some(k) => Take(v, k, worker, now)
         case None => v)
      case Heartbeat(k, worker, _, now) =>
        Emit(w.(tasks := w.tasks[k := w.tasks[k].(expires := Some(now + w.leaseSeconds))]), LeaseRenewed(k, worker), now)
      case Succeed(k, worker, _, now) =>
        var s := CompletionState(w);
        Refreshed(Emit(w.(tasks := w.tasks[k := Release(w.tasks[k], s)]), TaskCompleted(k, s), now))
      case Fail(k, worker, failure, message, _, now) =>
        var s := FailureState(w, w.tasks[k], failure);
        var r := Release(w.tasks[k], s).(lastError := Some(Reported(message)));
        Refreshed(Emit(w.(tasks := w.tasks[k := r]), TaskFailed(k, failure, s, message), now))
      case RequestCancel(now) =>
        Emit(w.(tasks := CancelTo(w.tasks, w.order, |w.order|), cancelled := true), CancellationAsked, now)
  }

  function Empty(leaseSeconds: int): Flow {
    Flow(leaseSeconds, [], map[], [], false)
  }

  /** The state after a list of commands, refused ones included. */
  function RunCommands(leaseSeconds: int, commands: seq<Command>): Flow {
    if commands == [] then Empty(leaseSeconds)
    else Apply(RunCommands(leaseSeconds, commands[..|commands| - 1]), commands[|commands| - 1])
  }

  /** Events after a cursor, at most `limit` of them. */
  function Page(events: seq<Event>, after: int, limit: int): seq<Event>
    requires limit >= 0
  {
    if events == [] || limit == 0 then []
    else if events[0].cursor > after then [events[0]] + Page(events[1..], after, limit - 1)
    else Page(events[1..], after, limit)
  }

  /** One event more at the end joins the page if it is past the cursor and there is room. */
  lemma {:induction false} PageSnoc(events: seq<Event>, e: Event, after: int, limit: int)
    requires limit >= 0
    ensures var page := Page(events, after, limit);
            Page(events + [e], after, limit) == if e.cursor > after && |page| < limit then page + [e] else page
  {
    hide Page;
    PageOfNothing(after, limit);
    if events == [] {
      assert events + [e] == [e] && [e][1..] == [];
      PageStep([e], after, limit);
      if limit > 0 { PageOfNothing(after, limit - 1); }
    } else {
      assert (events + [e])[1..] == events[1..] + [e];
      PageStep(events, after, limit);
      PageStep(events + [e], after, limit);
      if events[0].cursor > after && limit > 0 {
        PageSnoc(events[1..], e, after, limit - 1);
      } else {
        PageSnoc(events[1..], e, after, limit);
      }
    }
  }

  lemma PageOfNothing(after: int, limit: int)
    requires limit >= 0
    ensures Page([], after, limit) == []
  {
  }

  lemma PageStep(events: seq<Event>, after: int, limit: int)
    requires events != [] && limit >= 0
    ensures Page(events, after, limit)
         == if events[0].cursor > after && limit > 0 then [events[0]] + Page(events[1..], after, limit - 1)
            else Page(events[1..], after, limit)
  {
  }

  lemma CancelUnfold(w: Flow, now: int)
    ensures Apply(w, RequestCancel(now))
         == Emit(w.(tasks := CancelTo(w.tasks, w.order, |w.order|), cancelled := true), CancellationAsked, now)
  {
  }

  lemma FailUnfold(w: Flow, k: Name, worker: Name, failure: FailureClass, message: Name, clock: int, now: int)
    requires message.text != "" && Ownership(w, k, worker, clock).None?
    ensures k in w.tasks
    ensures var s := FailureState(w, w.tasks[k], failure);
            var r := Release(w.tasks[k], s).(lastError := Some(Reported(message)));
            Apply(w, Fail(k, worker, failure, message, clock, now))
            == Refreshed(Emit(w.(tasks := w.tasks[k := r]), TaskFailed(k, failure, s, message), now))
  {
    hide Refreshed, Emit, FailureState, Release;
  }

  lemma RefusedUnchanged(w: Flow, c: Command)
    requires Refusal(w, c).Some?
    ensures Apply(w, c) == w
  {
    hide Refusal;
  }

  lemma CancelNone(tasks: Table, order: seq<Name>)
    ensures CancelTo(tasks, order, 0) == tasks
  {
  }

  lemma CancelStep(tasks: Table, order: seq<Name>, n: nat)
    requires 0 < n <= |order|
    ensures var t, k := CancelTo(tasks, order, n - 1), order[n - 1];
            CancelTo(tasks, order, n) == if k in t then t[k := CancelRecord(t[k])] else t
  {
  }

  // ---- the object --------------------------------------------------------------------------------

  class CloseRunWorkflow {
    const leaseSeconds: int
    var order: seq<Name>
    var tasks: Table
    var events: seq<Event>
    var cancelRequested: bool

    ghost function State(): Flow
      reads this
    {
      Flow(leaseSeconds, order, tasks, events, cancelRequested)
    }

    /** The key list and the dictionary hold the same keys. */
    ghost predicate Valid()
      reads this
    {
      (forall k :: k in order <==> k in tasks) && forall i, j :: 0 <= i < j < |order| ==> order[i] != order[j]
    }

    constructor (leaseSeconds: int)
      requires leaseSeconds >= 1
      ensures Valid() && State() == Empty(leaseSeconds)
    {
      this.leaseSeconds := leaseSeconds;
      order, tasks, events, cancelRequested := [], map[], [], false;
    }

    method EmitEvent(body: EventBody, at: int)
      modifies this`events
      ensures State() == Emit(old(State()), body, at)
    {
      events := events + [Event(|events| + 1, body, at)];
    }

    method RefreshReady()
      requires Valid()
      modifies this`tasks
      ensures Valid() && State() == Refreshed(old(State()))
    {
      hide AnyDead, AllSucceeded, RefreshTo;
      RefreshNone(tasks, order, cancelRequested);
      for n := 0 to |order|
        invariant tasks == RefreshTo(old(tasks), order, n, cancelRequested)
        invariant forall k :: k in order <==> k in tasks
      {
        RefreshStep(old(tasks), order, n + 1, cancelRequested);
        var record := tasks[order[n]];
        if record.state == Pending {
          if AnyDead(tasks, record.definition.dependencies) {
            tasks := tasks[order[n] := record.(state := Blocked, lastError := Some(DependencyFailed))];
          } else if AllSucceeded(tasks, record.definition.dependencies) {
            tasks := tasks[order[n] := record.(state := if cancelRequested then Cancelled else Ready)];
          }
        }
      }
    }

    method AddTask(definition: TaskDefinition, now: int) returns (r: Outcome<TaskRecord>)
      requires Valid()
      modifies this
      ensures Valid() && State() == Apply(old(State()), Command.AddTask(definition, now))
      ensures r == match Refusal(old(State()), Command.AddTask(definition, now))
                   case Some(e) => Refused(e)
                   case None => Done(State().tasks[definition.key])
    {
      if definition.key in tasks {
        return Refused(KeyExists);
      }
      if exists k :: k in definition.dependencies && k !in tasks {
        return Refused(MissingDependency);
      }
      order := order + [definition.key];
      tasks := tasks[definition.key := NewRecord(definition)];
      RefreshReady();
      EmitEvent(TaskCreated(definition.key), now);
      return Done(tasks[definition.key]);
    }

    /** The turn of the expiry loop for one task. */
    method ExpireLease(k: Name, now: int)
      requires Valid() && k in tasks
      modifies this`tasks, this`events
      ensures Valid() && State() == ExpireOne(old(State()), k, now)
    {
      var record := tasks[k];
      if !Leased(record.state) {
        return;
      }
      if record.expires.None? || record.expires.value > now {
        return;
      }
      if record.attempt < record.definition.maxAttempts && !cancelRequested {
        tasks := tasks[k := record.(state := Ready, owner := None, expires := None, lastError := Some(LeaseRetry))];
        EmitEvent(LeaseExpired(k), now);
      } else {
        var s := if cancelRequested then Cancelled else Failed;
        var note := if !cancelRequested then LeaseExhausted else LeaseCancelled;
        tasks := tasks[k := record.(state := s, owner := None, expires := None, lastError := Some(note))];
        EmitEvent(TaskTerminal(k, s), now);
      }
    }

    method ExpireLeases(now: int)
      requires Valid()
      modifies this`tasks, this`events
      ensures Valid() && State() == Expire(old(State()), now)
    {
      hide ExpireOne;
      for n := 0 to |order|
        invariant State() == ExpireTo(old(State()), n, now)
        invariant Valid()
      {
        ExpireLease(order[n], now);
      }
    }

    /** The body of the claim loop at a ready task. */
    method TakeTask(k: Name, worker: Name, now: int)
      requires Valid() && k in tasks
      modifies this`tasks, this`events
      ensures Valid() && State() == Take(old(State()), k, worker, now)
    {
      var record := tasks[k];
      tasks := tasks[k := record.(state := Running, attempt := record.attempt + 1, owner := Some(worker),
                                  expires := Some(now + leaseSeconds))];
      EmitEvent(TaskClaimed(k, worker, record.attempt + 1), now);
    }

    method ClaimReady(worker: Name, now: int) returns (r: Outcome<Option<TaskRecord>>)
      requires Valid()
      modifies this
      ensures Valid() && State() == Apply(old(State()), Command.ClaimReady(worker, now))
      ensures r == if worker.text == "" then Refused(WorkerRequired)
                   else match Claimable(old(State()), now)
                        case None => Done(None)
                        case Some(k) => Done(Some(State().tasks[k]))
    {
      if worker.text == "" {
        return Refused(WorkerRequired);
      }
      hide Expire, Refresh, Take;
      ExpireLeases(now);
      RefreshReady();
      ghost var v := State();
      for n := 0 to |order|
        invariant State() == v && Valid()
        invariant FirstReady(v, 0) == FirstReady(v, n)
      {
        var k := order[n];
        if tasks[k].state == Ready {
          TakeTask(k, worker, now);
          return Done(Some(tasks[k]));
        }
      }
      return Done(None);
    }

    /** The shared guard of heartbeat, succeed and fail. */
    method OwnedRunning(k: Name, worker: Name, clock: int) returns (error: Option<WorkflowError>)
      ensures error == Ownership(State(), k, worker, clock)
    {
      if k !in tasks {
        return Some(NotRunning);
      }
      var record := tasks[k];
      if record.state != Running && record.state != CancellationRequested {
        return Some(NotRunning);
      }
      if record.owner != Some(worker) {
        return Some(NotOwner);
      }
      if record.expires.Some? && record.expires.value <= clock {
        return Some(LeaseOver);
      }
      return None;
    }

    method Heartbeat(k: Name, worker: Name, clock: int, now: int) returns (r: Outcome<TaskRecord>)
      requires Valid()
      modifies this`tasks, this`events
      ensures Valid() && State() == Apply(old(State()), Command.Heartbeat(k, worker, clock, now))
      ensures r == match Ownership(old(State()), k, worker, clock)
                   case Some(e) => Refused(e)
                   case None => Done(State().tasks[k])
    {
      var error := OwnedRunning(k, worker, clock);
      if error.Some? {
        return Refused(error.value);
      }
      tasks := tasks[k := tasks[k].(expires := Some(now + leaseSeconds))];
      EmitEvent(LeaseRenewed(k, worker), now);
      return Done(tasks[k]);
    }

    method Succeed(k: Name, worker: Name, clock: int, now: int) returns (r: Outcome<TaskRecord>)
      requires Valid()
      modifies this`tasks, this`events
      ensures Valid() && State() == Apply(old(State()), Command.Succeed(k, worker, clock, now))
      ensures r == match Ownership(old(State()), k, worker, clock)
                   case Some(e) => Refused(e)
                   case None => Done(State().tasks[k])
    {
      hide RefreshTo;
      var error := OwnedRunning(k, worker, clock);
      if error.Some? {
        return Refused(error.value);
      }
      var s := if cancelRequested then Cancelled else Succeeded;
      tasks := tasks[k := tasks[k].(state := s, owner := None, expires := None)];
      EmitEvent(TaskCompleted(k, s), now);
      RefreshReady();
      return Done(tasks[k]);
    }

    method Fail(k: Name, worker: Name, failure: FailureClass, message: Name, clock: int, now: int) returns (r: Outcome<TaskRecord>)
      requires Valid()
      modifies this`tasks, this`events
      ensures Valid() && State() == Apply(old(State()), Command.Fail(k, worker, failure, message, clock, now))
      ensures r == match Refusal(old(State()), Command.Fail(k, worker, failure, message, clock, now))
                   case Some(e) => Refused(e)
                   case None => Done(State().tasks[k])
    {
      hide Refresh, Apply, Ownership;
      if Refusal(State(), Command.Fail(k, worker, failure, message, clock, now)).Some? {
        RefusedUnchanged(State(), Command.Fail(k, worker, failure, message, clock, now));
      } else {
        FailUnfold(State(), k, worker, failure, message, clock, now);
      }
      if message.text == "" {
        return Refused(MessageRequired);
      }
      var error := OwnedRunning(k, worker, clock);
      if error.Some? {
        return Refused(error.value);
      }
      var record := tasks[k].(lastError := Some(Reported(message)), owner := None, expires := None);
      if failure.Retryable? && record.attempt < record.definition.maxAttempts && !cancelRequested {
        record := record.(state := Ready);
      } else if failure.BlockedFailure? {
        record := record.(state := Blocked);
      } else {
        record := record.(state := if cancelRequested then Cancelled else Failed);
      }
      tasks := tasks[k := record];
      EmitEvent(TaskFailed(k, failure, record.state, message), now);
      RefreshReady();
      return Done(tasks[k]);
    }

    /** The turn of the cancelling loop for one task. */
    method CancelTask(k: Name)
      requires k in tasks
      modifies this`tasks
      ensures tasks == old(tasks)[k := CancelRecord(old(tasks)[k])]
    {
      var record := tasks[k];
      if record.state.Pending? || record.state.Ready? {
        record := record.(state := Cancelled);
      } else if record.state == Running {
        record := record.(state := CancellationRequested);
      }
      tasks := tasks[k := record];
    }

    method RequestCancel(now: int)
      requires Valid()
      modifies this
      ensures Valid() && State() == Apply(old(State()), Command.RequestCancel(now))
    {
      hide Apply, CancelTo, CancelRecord;
      CancelUnfold(State(), now);
      cancelRequested := true;
      CancelNone(tasks, order);
      for n := 0 to |order|
        invariant tasks.Keys == old(tasks).Keys && tasks == CancelTo(old(tasks), order, n)
        modifies this`tasks
      {
        CancelStep(old(tasks), order, n + 1);
        CancelTask(order[n]);
      }
      EmitEvent(CancellationAsked, now);
    }

    method ReplayEvents(after: int, limit: int) returns (r: Outcome<seq<Event>>)
      ensures r == if after < 0 || limit < 1 then Refused(BadPage) else Done(Page(events, after, limit))
    {
      hide Page;
      if after < 0 || limit < 1 {
        return Refused(BadPage);
      }
      var page: seq<Event> := [];
      PageOfNothing(after, limit);
      assert events[..0] == [];
      for n := 0 to |events|
        invariant page == Page(events[..n], after, limit)
      {
        assert events[..n + 1] == events[..n] + [events[n]];
        PageSnoc(events[..n], events[n], after, limit);
        if events[n].cursor > after && |page| < limit {
          page := page + [events[n]];
        }
      }
      assert events[..|events|] == events;
      return Done(page);
    }
  }
}
