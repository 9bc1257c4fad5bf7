/** The promises of the workflow: ends are final, cancellation sticks, no task is stuck,
    work is bounded, and the event log alone rebuilds the state. */
module WorkflowTheorems {
  import opened Names
  import opened Workflow
  import opened Readiness
  import opened WorkflowRuns

  // ---- final states and cancellation -----------------------------------------------------------

  lemma {:induction false} ExpireTouchesLeased(w: Flow, n: nat, now: int, k: Name)
    requires n <= |w.order| && k in w.tasks
    ensures var v := ExpireTo(w, n, now);
            && k in v.tasks && v.cancelled == w.cancelled && v.order == w.order
            && (!Leased(w.tasks[k].state) ==> v.tasks[k] == w.tasks[k])
            && (v.tasks[k].state.Succeeded? ==> w.tasks[k].state.Succeeded?)
  {
    if n > 0 { ExpireTouchesLeased(w, n - 1, now, k); }
  }

  lemma RefreshKeepsTerminal(w: Flow, k: Name)
    requires Sound(w) && k in w.tasks
    ensures k in Refreshed(w).tasks
    ensures !w.tasks[k].state.Pending? ==> Refreshed(w).tasks[k] == w.tasks[k]
    ensures Refreshed(w).tasks[k].state.Succeeded? ==> w.tasks[k].state.Succeeded?
  {
    hide Refresh, Sound;
    RefreshSound(w);
  }

  lemma ClaimKeeps(w: Flow, worker: Name, now: int, k: Name)
    requires Inv(w) && k in w.tasks
    ensures var v := Apply(w, ClaimReady(worker, now));
            && k in v.tasks && v.cancelled == w.cancelled
            && (Terminal(w.tasks[k].state) ==> v.tasks[k] == w.tasks[k])
            && (v.tasks[k].state.Succeeded? ==> w.tasks[k].state.Succeeded?)
  {
    hide ExpireTo, Refresh, Sound, Claimable;
    ExpireTouchesLeased(w, |w.order|, now, k);
    ExpireSound(w, |w.order|, now);
    RefreshKeepsTerminal(Expire(w, now), k);
    ClaimParts(w, now);
  }

  lemma CancelKeeps(w: Flow, now: int, k: Name)
    requires Inv(w) && k in w.tasks
    ensures var v := Apply(w, RequestCancel(now));
            k in v.tasks && v.cancelled && v.tasks[k] == CancelRecord(w.tasks[k])
  {
    hide CancelTo, CancelRecord, TaskOk;
    CancelUnfold(w, now);
    CancelPointwise(w.tasks, w.order, |w.order|);
    assert w.order[..|w.order|] == w.order;
  }

  /** Succeeded, blocked, failed and cancelled are final: no command changes such a task.
      A cancelled workflow stays cancelled and no task newly succeeds in it. */
  lemma EndsAreFinal(w: Flow, c: Command, k: Name)
    requires Inv(w) && k in w.tasks
    ensures k in Apply(w, c).tasks
    ensures Terminal(w.tasks[k].state) ==> Apply(w, c).tasks[k] == w.tasks[k]
    ensures w.cancelled ==> Apply(w, c).cancelled
    ensures w.cancelled && Apply(w, c).tasks[k].state.Succeeded? ==> w.tasks[k].state.Succeeded?
  {
    hide ExpireTo, Refresh, Sound, Claimable, CancelTo, Apply;
    match c {
      case ClaimReady(worker, now) => ClaimKeeps(w, worker, now, k);
      case RequestCancel(now) => CancelKeeps(w, now, k);
      case AddTask(d, now) => AddKeeps(w, d, now, k);
      case _ => FinishKeeps(w, c, k);
    }
  }

  lemma AddKeeps(w: Flow, d: TaskDefinition, now: int, k: Name)
    requires Inv(w) && k in w.tasks
    ensures var v := Apply(w, AddTask(d, now));
            && k in v.tasks && v.cancelled == w.cancelled
            && (Terminal(w.tasks[k].state) ==> v.tasks[k] == w.tasks[k])
            && (v.tasks[k].state.Succeeded? ==> w.tasks[k].state.Succeeded?)
  {
    hide Refresh, Sound;
    if Refusal(w, AddTask(d, now)).None? {
      AddSound(w, d);
      RefreshKeepsTerminal(w.(order := w.order + [d.key], tasks := w.tasks[d.key := NewRecord(d)]), k);
    }
  }

  lemma FinishKeeps(w: Flow, c: Command, k: Name)
    requires Inv(w) && k in w.tasks && (c.Heartbeat? || c.Succeed? || c.Fail?)
    ensures var v := Apply(w, c);
            && k in v.tasks && v.cancelled == w.cancelled
            && (Terminal(w.tasks[k].state) ==> v.tasks[k] == w.tasks[k])
            && (w.cancelled && v.tasks[k].state.Succeeded? ==> w.tasks[k].state.Succeeded?)
  {
    hide Refresh, Inv;
    if Refusal(w, c).None? {
      match c {
        case Succeed(key, worker, _, now) =>
          var s := CompletionState(w);
          ReleaseKeeps(w, key, Release(w.tasks[key], s), TaskCompleted(key, s), now, k);
        case Fail(key, worker, failure, message, _, now) =>
          var s := FailureState(w, w.tasks[key], failure);
          ReleaseKeeps(w, key, Release(w.tasks[key], s).(lastError := Some(Reported(message))), TaskFailed(key, failure, s, message), now, k);
        case _ =>
      }
    }
  }

  /** A leased task given up with a result the record allows. */
  ghost predicate Releases(w: Flow, key: Name, r: TaskRecord) {
    && key in w.tasks && Leased(w.tasks[key].state)
    && r.definition == w.tasks[key].definition && r.attempt == w.tasks[key].attempt && r.owner.None? && r.expires.None?
    && (Terminal(r.state) || (r.state.Ready? && MayRetry(r, w.cancelled)))
    && (r.state.Cancelled? ==> w.cancelled)
  }

  lemma ReleaseSound(w: Flow, key: Name, r: TaskRecord, body: EventBody, now: int)
    requires Inv(w) && Releases(w, key, r) && !body.TaskClaimed?
    ensures Sound(Emit(w.(tasks := w.tasks[key := r]), body, now))
  {
    assert TaskOk(w.tasks, key, w.cancelled);
    TouchSound(w, key, r, body, now);
  }

  lemma ReleaseKeeps(w: Flow, key: Name, r: TaskRecord, body: EventBody, now: int, k: Name)
    requires Inv(w) && k in w.tasks && Releases(w, key, r) && !body.TaskClaimed?
    ensures var v := Refreshed(Emit(w.(tasks := w.tasks[key := r]), body, now));
            && k in v.tasks
            && (Terminal(w.tasks[k].state) ==> v.tasks[k] == w.tasks[k])
            && (v.tasks[k].state.Succeeded? ==> w.tasks[k].state.Succeeded? || (k == key && r.state.Succeeded?))
  {
    hide Refresh, Inv, Sound;
    ReleaseSound(w, key, r, body, now);
    RefreshKeepsTerminal(Emit(w.(tasks := w.tasks[key := r]), body, now), k);
  }

  /** Over a whole run: what was final, or cancelled, after some commands still is after more. */
  lemma {:induction false} FinalForever(leaseSeconds: int, commands: seq<Command>, more: seq<Command>, k: Name)
    requires k in RunCommands(leaseSeconds, commands).tasks
    ensures var w, v := RunCommands(leaseSeconds, commands), RunCommands(leaseSeconds, commands + more);
            && k in v.tasks
            && (Terminal(w.tasks[k].state) ==> v.tasks[k] == w.tasks[k])
            && (w.cancelled ==> v.cancelled && !v.tasks[k].state.Ready? && !v.tasks[k].state.Running?)
            && (w.cancelled && v.tasks[k].state.Succeeded? ==> w.tasks[k].state.Succeeded?)
  {
    hide Apply, Inv, TaskOk;
    if more == [] {
      assert commands + more == commands;
      ReachableInv(leaseSeconds, commands);
      CancelledMeansIdle(RunCommands(leaseSeconds, commands), k);
    } else {
      var rest, last := more[..|more| - 1], more[|more| - 1];
      var all := commands + more;
      assert all[..|all| - 1] == commands + rest;
      FinalForever(leaseSeconds, commands, rest, k);
      var u := RunCommands(leaseSeconds, commands + rest);
      ReachableInv(leaseSeconds, commands + rest);
      EndsAreFinal(u, last, k);
      ApplyKeepsInv(u, last);
      CancelledMeansIdle(Apply(u, last), k);
    }
  }

  lemma CancelledMeansIdle(w: Flow, k: Name)
    requires Inv(w) && k in w.tasks
    ensures w.cancelled ==> !w.tasks[k].state.Ready? && !w.tasks[k].state.Running?
  {
    assert TaskOk(w.tasks, k, w.cancelled);
  }

  // ---- no task is stuck --------------------------------------------------------------------------

  lemma {:induction false} SettledPrefix(w: Flow, i: nat)
    requires Inv(w) && i < |w.order|
    requires forall k :: k in w.tasks ==> !Active(w.tasks[k].state)
    ensures w.order[i] in w.tasks && Terminal(w.tasks[w.order[i]].state)
    decreases i
  {
    var k := w.order[i];
    assert DependsOnEarlier(w.tasks, w.order, i);
    var deps := w.tasks[k].definition.dependencies;
    forall d | d in deps ensures d in w.tasks && Terminal(w.tasks[d].state) {
      var j :| 0 <= j < i && w.order[j] == d;
      SettledPrefix(w, j);
    }
    assert w.tasks[k] == Decide(w.tasks[k], w.tasks, w.cancelled);
    if w.tasks[k].state.Pending? && !AllSucceeded(w.tasks, deps) {
      var d :| d in deps && !(d in w.tasks && w.tasks[d].state.Succeeded?);
      assert AnyDead(w.tasks, deps);
    }
  }

  /** If nothing is ready or leased, every task has reached a final state. */
  lemma NoDeadlock(leaseSeconds: int, commands: seq<Command>, k: Name)
    requires var w := RunCommands(leaseSeconds, commands);
             k in w.tasks && forall j :: j in w.tasks ==> !Active(w.tasks[j].state)
    ensures Terminal(RunCommands(leaseSeconds, commands).tasks[k].state)
  {
    hide RunCommands;
    var w := RunCommands(leaseSeconds, commands);
    ReachableInv(leaseSeconds, commands);
    var i :| 0 <= i < |w.order| && w.order[i] == k;
    SettledPrefix(w, i);
  }

  /** The number of claims over a run is the sum of the attempts, and bounded by the budgets. */
  lemma ClaimsAreBounded(leaseSeconds: int, commands: seq<Command>)
    ensures var w := RunCommands(leaseSeconds, commands);
            Claims(w.events) == Attempts(w.tasks, w.order) <= Budget(w.tasks, w.order)
  {
    hide RunCommands, Attempts, Budget;
    var w := RunCommands(leaseSeconds, commands);
    ReachableInv(leaseSeconds, commands);
    forall k | k in w.order && k in w.tasks ensures w.tasks[k].attempt <= w.tasks[k].definition.maxAttempts {
      assert TaskOk(w.tasks, k, w.cancelled);
    }
    WithinBudget(w.tasks, w.order);
  }

  // ---- the log rebuilds the state -----------------------------------------------------------------------

  datatype Image = Image(order: seq<Name>, tasks: Table, cancelled: bool)

  type Definitions = map<Name, TaskDefinition>

  /** What one event says about the record of its task. */
  ghost function RecordAfter(r: TaskRecord, e: Event, leaseSeconds: int): TaskRecord {
    match e.body
    case TaskClaimed(_, worker, attempt) =>
      r.(state := Running, attempt := attempt, owner := Some(worker), expires := Some(e.at + leaseSeconds))
    case LeaseExpired(_) => Release(r, Ready).(lastError := Some(LeaseRetry))
    case TaskTerminal(_, s) =>
      Release(r, s).(lastError := Some(if s.Cancelled? then LeaseCancelled else LeaseExhausted))
    case LeaseRenewed(_, _) => r.(expires := Some(e.at + leaseSeconds))
    case TaskCompleted(_, s) => Release(r, s)
    case TaskFailed(_, _, s, message) => Release(r, s).(lastError := Some(Reported(message)))
    case _ => r
  }

  ghost function Replay1(s: Image, e: Event, definitions: Definitions, leaseSeconds: int): Image {
    match e.body
    case TaskCreated(k) =>
      if k in definitions then s.(order := s.order + [k], tasks := s.tasks[k := NewRecord(definitions[k])]) else s
    case CancellationAsked => s.(tasks := CancelTo(s.tasks, s.order, |s.order|), cancelled := true)
    case _ =>
      var k := e.body.key;
      if k in s.tasks then s.(tasks := s.tasks[k := RecordAfter(s.tasks[k], e, leaseSeconds)]) else s
  }

  /** Fold the log over the declared definitions, settling readiness after each event. */
  ghost function Replay(definitions: Definitions, leaseSeconds: int, events: seq<Event>): Image {
    if events == [] then Image([], map[], false)
    else
      var s := Replay1(Replay(definitions, leaseSeconds, events[..|events| - 1]), events[|events| - 1], definitions, leaseSeconds);
      s.(tasks := Refresh(s.tasks, s.order, s.cancelled))
  }

  ghost predicate Declares(definitions: Definitions, w: Flow) {
    forall k :: k in w.tasks ==> k in definitions && definitions[k] == w.tasks[k].definition
  }

  /** The log replays to the state once that is settled. */
  ghost predicate Replays(definitions: Definitions, w: Flow) {
    Replay(definitions, w.leaseSeconds, w.events)
    == Image(w.order, Refresh(w.tasks, w.order, w.cancelled), w.cancelled)
  }

  lemma ReplayEmit(definitions: Definitions, leaseSeconds: int, events: seq<Event>, e: Event)
    ensures var s := Replay1(Replay(definitions, leaseSeconds, events), e, definitions, leaseSeconds);
            Replay(definitions, leaseSeconds, events + [e]) == s.(tasks := Refresh(s.tasks, s.order, s.cancelled))
  {
    hide Refresh, Replay1;
    assert (events + [e])[..|events|] == events;
  }

  lemma StableReplays(w: Flow)
    requires Ordered(w.tasks, w.order) && Stable(w.tasks, w.cancelled)
    ensures Refresh(w.tasks, w.order, w.cancelled) == w.tasks
  {
    RefreshUnique(w.tasks, w.order, w.tasks, w.cancelled);
  }

  ghost predicate Touches(body: EventBody) {
    !body.TaskCreated? && !body.CancellationAsked?
  }

  /** One logged change of a leased task, from a state that need not be settled. */
  lemma TouchLeasedReplays(definitions: Definitions, w: Flow, k: Name, r: TaskRecord, body: EventBody, at: int)
    requires Ordered(w.tasks, w.order) && Replays(definitions, w) && k in w.tasks && Leased(w.tasks[k].state)
    requires Touches(body) && body.key == k
    requires r == RecordAfter(w.tasks[k], Event(|w.events| + 1, body, at), w.leaseSeconds)
    requires !r.state.Pending? && r.definition == w.tasks[k].definition
    ensures Replays(definitions, Emit(w.(tasks := w.tasks[k := r]), body, at))
  {
    hide Refresh, Replay, RecordAfter, Ordered;
    RefreshAbsorbs(w.tasks, w.order, w.cancelled, k, r);
    ReplayEmit(definitions, w.leaseSeconds, w.events, Event(|w.events| + 1, body, at));
  }

  /** One logged change, from a settled state. */
  lemma TouchSettledReplays(definitions: Definitions, w: Flow, k: Name, r: TaskRecord, body: EventBody, at: int)
    requires Inv(w) && Replays(definitions, w) && k in w.tasks && Touches(body) && body.key == k
    requires r == RecordAfter(w.tasks[k], Event(|w.events| + 1, body, at), w.leaseSeconds)
    ensures Replays(definitions, Emit(w.(tasks := w.tasks[k := r]), body, at))
  {
    hide Refresh, Replay, RecordAfter, Ordered, TaskOk;
    InvOrdered(w);
    StableReplays(w);
    ReplayEmit(definitions, w.leaseSeconds, w.events, Event(|w.events| + 1, body, at));
  }

  lemma ExpireOneReplays(definitions: Definitions, w: Flow, k: Name, now: int)
    requires Sound(w) && Replays(definitions, w)
    ensures Replays(definitions, ExpireOne(w, k, now))
  {
    hide Replays, Ordered;
    if k in w.tasks && LeaseIsOver(w.tasks[k], now) {
      var v := ExpireOne(w, k, now);
      TouchLeasedReplays(definitions, w, k, v.tasks[k], v.events[|w.events|].body, now);
    }
  }

  lemma {:induction false} ExpireReplays(definitions: Definitions, w: Flow, n: nat, now: int)
    requires Sound(w) && Replays(definitions, w) && n <= |w.order|
    ensures Replays(definitions, ExpireTo(w, n, now))
  {
    hide Replays, Sound, ExpireOne;
    if n > 0 {
      ExpireReplays(definitions, w, n - 1, now);
      ExpireSound(w, n - 1, now);
      ExpireOneReplays(definitions, ExpireTo(w, n - 1, now), w.order[n - 1], now);
    }
  }

  lemma SettleReplays(definitions: Definitions, w: Flow)
    requires Sound(w) && Replays(definitions, w)
    ensures Replays(definitions, Refreshed(w))
  {
    hide Refresh, Replay, Sound;
    RefreshSound(w);
    InvOrdered(Refreshed(w));
    StableReplays(Refreshed(w));
  }

  lemma ClaimReplays(definitions: Definitions, w: Flow, worker: Name, now: int)
    requires Inv(w) && Replays(definitions, w)
    ensures Replays(definitions, Apply(w, ClaimReady(worker, now)))
  {
    hide Refresh, ExpireTo, Replays, Sound, Claimable, Stable;
    ExpireReplays(definitions, w, |w.order|, now);
    ExpireSound(w, |w.order|, now);
    SettleReplays(definitions, Expire(w, now));
    ClaimParts(w, now);
    var v := Refreshed(Expire(w, now));
    if Claimable(w, now).Some? {
      var k := Claimable(w, now).value;
      var u := Take(v, k, worker, now);
      TouchSettledReplays(definitions, v, k, u.tasks[k], TaskClaimed(k, worker, u.tasks[k].attempt), now);
    }
  }

  lemma CancelReplays(definitions: Definitions, w: Flow, now: int)
    requires Inv(w) && Replays(definitions, w)
    ensures Replays(definitions, Apply(w, RequestCancel(now)))
  {
    hide Refresh, Replay, CancelTo, Ordered, TaskOk;
    InvOrdered(w);
    StableReplays(w);
    CancelUnfold(w, now);
    ReplayEmit(definitions, w.leaseSeconds, w.events, Event(|w.events| + 1, CancellationAsked, now));
  }

  lemma AddReplays(definitions: Definitions, w: Flow, d: TaskDefinition, now: int)
    requires Inv(w) && Replays(definitions, w) && Refusal(w, AddTask(d, now)).None?
    requires d.key in definitions && definitions[d.key] == d
    ensures Replays(definitions, Apply(w, AddTask(d, now)))
  {
    hide Refresh, Replay, Ordered, TaskOk, Sound;
    InvOrdered(w);
    StableReplays(w);
    var v := w.(order := w.order + [d.key], tasks := w.tasks[d.key := NewRecord(d)]);
    AddSound(w, d);
    RefreshSound(v);
    InvOrdered(Refreshed(v));
    StableReplays(Refreshed(v));
    ReplayEmit(definitions, w.leaseSeconds, w.events, Event(|w.events| + 1, TaskCreated(d.key), now));
  }

  lemma ReleaseReplays(definitions: Definitions, w: Flow, key: Name, r: TaskRecord, body: EventBody, now: int)
    requires Inv(w) && Replays(definitions, w) && Releases(w, key, r) && Touches(body) && body.key == key && !body.TaskClaimed?
    requires r == RecordAfter(w.tasks[key], Event(|w.events| + 1, body, now), w.leaseSeconds)
    ensures Replays(definitions, Refreshed(Emit(w.(tasks := w.tasks[key := r]), body, now)))
  {
    hide Refresh, Replays, Inv, Sound, RecordAfter;
    ReleaseSound(w, key, r, body, now);
    TouchSettledReplays(definitions, w, key, r, body, now);
    SettleReplays(definitions, Emit(w.(tasks := w.tasks[key := r]), body, now));
  }

  lemma FinishReplays(definitions: Definitions, w: Flow, c: Command)
    requires Inv(w) && Replays(definitions, w) && (c.Heartbeat? || c.Succeed? || c.Fail?) && Refusal(w, c).None?
    ensures Replays(definitions, Apply(w, c))
  {
    hide Refresh, Replays, Inv;
    match c {
      case Heartbeat(k, worker, _, now) =>
        TouchSettledReplays(definitions, w, k, w.tasks[k].(expires := Some(now + w.leaseSeconds)), LeaseRenewed(k, worker), now);
      case Succeed(k, worker, _, now) =>
        var s := CompletionState(w);
        ReleaseReplays(definitions, w, k, Release(w.tasks[k], s), TaskCompleted(k, s), now);
      case Fail(k, worker, failure, message, _, now) =>
        var s := FailureState(w, w.tasks[k], failure);
        var r := Release(w.tasks[k], s).(lastError := Some(Reported(message)));
        ReleaseReplays(definitions, w, k, r, TaskFailed(k, failure, s, message), now);
    }
  }

  lemma ApplyReplays(definitions: Definitions, w: Flow, c: Command)
    requires Inv(w) && Replays(definitions, w) && Declares(definitions, Apply(w, c))
    ensures Replays(definitions, Apply(w, c))
  {
    hide Replays, Inv, Refresh, ExpireTo, Claimable, CancelTo;
    if Refusal(w, c).None? {
      match c {
        case AddTask(d, now) =>
          AddedDefinition(w, d, now);
          AddReplays(definitions, w, d, now);
        case ClaimReady(worker, now) => ClaimReplays(definitions, w, worker, now);
        case RequestCancel(now) => CancelReplays(definitions, w, now);
        case _ => FinishReplays(definitions, w, c);
      }
    }
  }

  lemma AddedDefinition(w: Flow, d: TaskDefinition, now: int)
    requires Inv(w) && Refusal(w, AddTask(d, now)).None?
    ensures var v := Apply(w, AddTask(d, now)); d.key in v.tasks && v.tasks[d.key].definition == d
  {
    hide Refresh, Sound;
    AddSound(w, d);
    RefreshSound(w.(order := w.order + [d.key], tasks := w.tasks[d.key := NewRecord(d)]));
  }

  lemma {:induction false} LogReplays(definitions: Definitions, leaseSeconds: int, commands: seq<Command>)
    requires Declares(definitions, RunCommands(leaseSeconds, commands))
    ensures RunCommands(leaseSeconds, commands).leaseSeconds == leaseSeconds
    ensures Replays(definitions, RunCommands(leaseSeconds, commands))
  {
    if commands == [] {
    } else {
      hide Apply, Inv, Replays;
      var before := RunCommands(leaseSeconds, commands[..|commands| - 1]);
      var c := commands[|commands| - 1];
      ReachableInv(leaseSeconds, commands[..|commands| - 1]);
      forall k | k in before.tasks ensures k in definitions && definitions[k] == before.tasks[k].definition {
        DefinitionKept(before, c, k);
      }
      LogReplays(definitions, leaseSeconds, commands[..|commands| - 1]);
      ApplyReplays(definitions, before, c);
      LeaseSecondsKept(before, c);
    }
  }

  lemma {:induction false} ExpireSecondsKept(w: Flow, n: nat, now: int)
    requires n <= |w.order|
    ensures ExpireTo(w, n, now).leaseSeconds == w.leaseSeconds
  {
    if n > 0 { ExpireSecondsKept(w, n - 1, now); }
  }

  lemma LeaseSecondsKept(w: Flow, c: Command)
    ensures Apply(w, c).leaseSeconds == w.leaseSeconds
  {
    hide Refresh, ExpireTo, Claimable, CancelTo;
    if c.ClaimReady? { ExpireSecondsKept(w, |w.order|, c.now); }
  }

  lemma {:induction false} ExpireDefinitions(w: Flow, n: nat, now: int)
    requires n <= |w.order|
    ensures SameDefinitions(w.tasks, ExpireTo(w, n, now).tasks)
  {
    if n > 0 { ExpireDefinitions(w, n - 1, now); }
  }

  lemma DefinitionKept(w: Flow, c: Command, k: Name)
    requires Inv(w) && k in w.tasks
    ensures k in Apply(w, c).tasks && Apply(w, c).tasks[k].definition == w.tasks[k].definition
  {
    hide ExpireTo, Claimable, CancelTo, RefreshTo, Sound;
    match c {
      case ClaimReady(_, now) =>
        ExpireDefinitions(w, |w.order|, now);
        RefreshToKeeps(Expire(w, now).tasks, Expire(w, now).order, |Expire(w, now).order|, Expire(w, now).cancelled);
      case RequestCancel(now) => CancelKeeps(w, now, k);
      case AddTask(d, _) =>
        RefreshToKeeps(w.tasks[d.key := NewRecord(d)], w.order + [d.key], |w.order| + 1, w.cancelled);
      case Succeed(key, _, _, _) =>
        if Refusal(w, c).None? {
          RefreshToKeeps(w.tasks[key := Release(w.tasks[key], CompletionState(w))], w.order, |w.order|, w.cancelled);
        }
      case Fail(key, _, failure, message, _, _) =>
        if Refusal(w, c).None? {
          var r := Release(w.tasks[key], FailureState(w, w.tasks[key], failure)).(lastError := Some(Reported(message)));
          RefreshToKeeps(w.tasks[key := r], w.order, |w.order|, w.cancelled);
        }
      case _ =>
    }
  }

  /** Folding the event log over the declared tasks rebuilds every record and the cancel flag. */
  lemma LogRebuildsState(definitions: Definitions, leaseSeconds: int, commands: seq<Command>)
    requires Declares(definitions, RunCommands(leaseSeconds, commands))
    ensures var w := RunCommands(leaseSeconds, commands);
            Replay(definitions, leaseSeconds, w.events) == Image(w.order, w.tasks, w.cancelled)
  {
    hide RunCommands, Refresh, Replay, Sound;
    LogReplays(definitions, leaseSeconds, commands);
    ReachableInv(leaseSeconds, commands);
    var w := RunCommands(leaseSeconds, commands);
    InvOrdered(w);
    StableReplays(w);
  }

  // ---- paging the log ---------------------------------------------------------------------------------

  ghost predicate NumberedFrom(events: seq<Event>, first: int) {
    forall i :: 0 <= i < |events| ==> events[i].cursor == first + i
  }

  ghost function FirstOf(events: seq<Event>, limit: nat): seq<Event> {
    if |events| <= limit then events else events[..limit]
  }

  /** A cursor before the first event selects from the first event on. */
  lemma {:induction false} PageTakes(events: seq<Event>, first: int, after: int, limit: int)
    requires NumberedFrom(events, first) && 0 <= limit && after < first
    ensures Page(events, after, limit) == FirstOf(events, limit)
  {
    if events != [] && limit > 0 {
      PageTakes(events[1..], first + 1, after, limit - 1);
      assert FirstOf(events, limit) == [events[0]] + FirstOf(events[1..], limit - 1);
    }
  }

  lemma {:induction false} PageFrom(events: seq<Event>, first: int, after: int, limit: int)
    requires NumberedFrom(events, first) && 0 <= limit && first - 1 <= after <= first - 1 + |events|
    ensures Page(events, after, limit) == FirstOf(events[after - (first - 1)..], limit)
  {
    if events != [] && first <= after {
      PageFrom(events[1..], first + 1, after, limit);
      assert events[1..][after - first..] == events[after - (first - 1)..];
    } else {
      PageTakes(events, first, after, limit);
      assert events[0..] == events;
    }
  }

  /** Reading page after page, each from the last cursor seen, `pages` times at most. */
  ghost function ReadAll(events: seq<Event>, after: int, limit: int, pages: nat): seq<Event>
    requires limit >= 1
    decreases pages
  {
    if pages == 0 then []
    else
      var page := Page(events, after, limit);
      if page == [] then [] else page + ReadAll(events, page[|page| - 1].cursor, limit, pages - 1)
  }

  /** Paging from any cursor returns every later event once, in order, and then stops. */
  lemma {:induction false} PagingIsComplete(events: seq<Event>, after: int, limit: int, pages: nat)
    requires Numbered(events) && limit >= 1 && 0 <= after <= |events| && pages >= |events| - after
    ensures ReadAll(events, after, limit, pages) == events[after..]
    decreases pages
  {
    hide Page;
    PageFrom(events, 1, after, limit);
    var page := Page(events, after, limit);
    if pages > 0 && page != [] {
      var next := after + |page|;
      assert page[|page| - 1] == events[next - 1];
      PagingIsComplete(events, next, limit, pages - 1);
      assert events[after..] == page + events[next..];
    }
  }
}
