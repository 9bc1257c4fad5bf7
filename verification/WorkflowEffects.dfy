/** What each workflow command does and who may give it, told by the records alone: states, owners,
    expiry times, budgets and dependencies. */
module WorkflowEffects {
  import opened Names
  import opened Workflow
  import opened Readiness
  import opened WorkflowRuns
  import opened WorkflowTheorems

  // ---- the plain readings --------------------------------------------------------------------------

  predicate HeldByAWorker(r: TaskRecord) {
    r.state == Running || r.state == CancellationRequested
  }

  /** The caller holds a lease on the task that ends after the clock. */
  predicate HoldsLease(w: Flow, k: Name, worker: Name, clock: int) {
    && k in w.tasks && HeldByAWorker(w.tasks[k])
    && w.tasks[k].owner == Some(worker) && w.tasks[k].expires.Some? && w.tasks[k].expires.value > clock
  }

  predicate Lost(r: TaskRecord, tasks: Table) {
    exists d :: d in r.definition.dependencies && d in tasks && tasks[d].state in {Blocked, Failed, Cancelled}
  }

  predicate Met(r: TaskRecord, tasks: Table) {
    forall d :: d in r.definition.dependencies ==> d in tasks && tasks[d].state == Succeeded
  }

  /** What readiness leaves of a record, by the states its dependencies end up in. */
  ghost predicate SettledAs(before: TaskRecord, after: TaskRecord, tasks: Table, cancelled: bool) {
    && after == before.(state := after.state, lastError := after.lastError)
    && (before.state != Pending || (!Lost(before, tasks) && !Met(before, tasks)) ==> after == before)
    && (before.state == Pending && Lost(before, tasks) ==> after.state == Blocked && after.lastError == Some(DependencyFailed))
    && (before.state == Pending && !Lost(before, tasks) && Met(before, tasks) ==>
          after.state == (if cancelled then Cancelled else Ready) && after.lastError == before.lastError)
  }

  predicate RunsOut(r: TaskRecord, now: int) {
    HeldByAWorker(r) && r.expires.Some? && r.expires.value <= now
  }

  /** What a lease running out leaves of a record. */
  ghost predicate ExpiredAs(before: TaskRecord, after: TaskRecord, cancelled: bool, now: int) {
    var left := before.attempt < before.definition.maxAttempts;
    && (!RunsOut(before, now) ==> after == before)
    && (RunsOut(before, now) ==>
          && after == TaskRecord(before.definition, after.state, before.attempt, None, None, after.lastError)
          && (cancelled ==> after.state == Cancelled && after.lastError == Some(LeaseCancelled))
          && (!cancelled && left ==> after.state == Ready && after.lastError == Some(LeaseRetry))
          && (!cancelled && !left ==> after.state == Failed && after.lastError == Some(LeaseExhausted)))
  }

  ghost predicate Appended(w: Flow, v: Flow, body: EventBody, at: int) {
    v.events == w.events + [Event(|w.events| + 1, body, at)]
  }

  // ---- who may act -----------------------------------------------------------------------------------

  predicate Acts(c: Command) { c.Heartbeat? || c.Succeed? || c.Fail? }

  predicate SaysWhy(c: Command) { c.Fail? ==> c.message.text != "" }

  /** After any run, a heartbeat, a success or a failure changes something exactly when it comes from the
      worker recorded on a task that is running or asked to stop, before the lease ends. */
  lemma OnlyTheHolderActs(leaseSeconds: int, commands: seq<Command>, c: Command)
    requires Acts(c)
    ensures var w := RunCommands(leaseSeconds, commands);
            Apply(w, c) != w <==> SaysWhy(c) && HoldsLease(w, c.key, c.worker, c.clock)
  {
    hide RunCommands, Refresh;
    var w := RunCommands(leaseSeconds, commands);
    ReachableInv(leaseSeconds, commands);
    LeaseFields(w, c.key);
    if Refusal(w, c).None? {
      assert |Apply(w, c).events| == |w.events| + 1;
    }
  }

  lemma LeaseFields(w: Flow, k: Name)
    requires Inv(w)
    ensures k in w.tasks && HeldByAWorker(w.tasks[k]) ==> w.tasks[k].owner.Some? && w.tasks[k].expires.Some?
  {
    hide Stable, Ordered, Claims, Attempts, AllSucceeded;
    if k in w.tasks { assert TaskOk(w.tasks, k, w.cancelled); }
  }

  /** The situation each error stands for. */
  ghost predicate Complaint(w: Flow, c: Command, e: WorkflowError) {
    match e
    case KeyExists => c.AddTask? && c.definition.key in w.tasks
    case MissingDependency =>
      c.AddTask? && c.definition.key !in w.tasks && exists d :: d in c.definition.dependencies && d !in w.tasks
    case WorkerRequired => c.ClaimReady? && c.worker.text == ""
    case MessageRequired => c.Fail? && c.message.text == ""
    case NotRunning => Acts(c) && SaysWhy(c) && !(c.key in w.tasks && HeldByAWorker(w.tasks[c.key]))
    case NotOwner =>
      Acts(c) && SaysWhy(c) && c.key in w.tasks && HeldByAWorker(w.tasks[c.key]) && w.tasks[c.key].owner != Some(c.worker)
    case LeaseOver =>
      && Acts(c) && SaysWhy(c) && c.key in w.tasks && HeldByAWorker(w.tasks[c.key])
      && w.tasks[c.key].owner == Some(c.worker) && w.tasks[c.key].expires.Some? && w.tasks[c.key].expires.value <= c.clock
    case BadPage => false
  }

  /** A command is refused with an error exactly in that error's situation. */
  lemma RefusedExactlyWhen(w: Flow, c: Command, e: WorkflowError)
    ensures Refusal(w, c) == Some(e) <==> Complaint(w, c, e)
  {
  }

  // ---- heartbeat, success and failure ------------------------------------------------------------------

  lemma HeartbeatEffect(w: Flow, k: Name, worker: Name, clock: int, now: int)
    requires Inv(w) && HoldsLease(w, k, worker, clock)
    ensures var v := Apply(w, Heartbeat(k, worker, clock, now));
            && v == w.(tasks := v.tasks, events := v.events)
            && v.tasks == w.tasks[k := w.tasks[k].(expires := Some(now + w.leaseSeconds))]
            && Appended(w, v, LeaseRenewed(k, worker), now)
  {
  }

  /** Every other task is settled, and `k` holds the given record. */
  ghost predicate GivenUp(w: Flow, v: Flow, k: Name, r: TaskRecord) {
    && v == w.(tasks := v.tasks, events := v.events) && v.tasks.Keys == w.tasks.Keys && k in v.tasks
    && v.tasks[k] == r
    && forall j :: j in w.tasks && j != k ==> SettledAs(w.tasks[j], v.tasks[j], v.tasks, w.cancelled)
  }

  lemma SettleMeaning(before: TaskRecord, tasks: Table, cancelled: bool)
    ensures SettledAs(before, Decide(before, tasks, cancelled), tasks, cancelled)
  {
    assert AnyDead(tasks, before.definition.dependencies) <==> Lost(before, tasks);
    assert AllSucceeded(tasks, before.definition.dependencies) <==> Met(before, tasks);
  }

  lemma SettlesMeaning(a: Table, b: Table, cancelled: bool)
    requires Settles(a, b, cancelled)
    ensures forall j :: j in a ==> SettledAs(a[j], b[j], b, cancelled)
  {
    hide Decide, SettledAs;
    forall j | j in a ensures SettledAs(a[j], b[j], b, cancelled) { SettleMeaning(a[j], b, cancelled); }
  }

  lemma ReleaseEffect(w: Flow, k: Name, r: TaskRecord, body: EventBody, now: int)
    requires Inv(w) && Releases(w, k, r) && !body.TaskClaimed?
    ensures var v := Refreshed(Emit(w.(tasks := w.tasks[k := r]), body, now));
            GivenUp(w, v, k, r) && Appended(w, v, body, now)
  {
    hide Inv, Sound, Refresh, SettledAs, SameDefinitions;
    var u := Emit(w.(tasks := w.tasks[k := r]), body, now);
    ReleaseSound(w, k, r, body, now);
    RefreshSound(u);
    SettlesMeaning(u.tasks, Refreshed(u).tasks, w.cancelled);
  }

  /** A success ends the task, as cancelled if the workflow is; its lease is gone. */
  lemma SuccessEffect(w: Flow, k: Name, worker: Name, clock: int, now: int)
    requires Inv(w) && HoldsLease(w, k, worker, clock)
    ensures var v := Apply(w, Succeed(k, worker, clock, now));
            var r := w.tasks[k];
            var s := if w.cancelled then Cancelled else Succeeded;
            && GivenUp(w, v, k, TaskRecord(r.definition, s, r.attempt, None, None, r.lastError))
            && Appended(w, v, TaskCompleted(k, s), now)
  {
    hide Refreshed, Inv, GivenUp;
    var s := CompletionState(w);
    assert Releases(w, k, Release(w.tasks[k], s));
    ReleaseEffect(w, k, Release(w.tasks[k], s), TaskCompleted(k, s), now);
  }

  /** A failure goes back to ready exactly if it may be retried, is within the budget and nothing was
      cancelled; a failure classed blocked blocks the task; any other ends it. */
  lemma FailureEffect(w: Flow, k: Name, worker: Name, failure: FailureClass, message: Name, clock: int, now: int)
    requires Inv(w) && HoldsLease(w, k, worker, clock) && message.text != ""
    ensures var v := Apply(w, Fail(k, worker, failure, message, clock, now));
            var r := w.tasks[k];
            && k in v.tasks
            && (v.tasks[k].state == Ready <==> failure == Retryable && r.attempt < r.definition.maxAttempts && !w.cancelled)
            && (v.tasks[k].state == Blocked <==> failure == BlockedFailure)
            && (v.tasks[k].state == Cancelled <==> failure != BlockedFailure && w.cancelled)
            && (v.tasks[k].state == Failed <==>
                  !w.cancelled && (failure == Fatal || (failure == Retryable && r.attempt >= r.definition.maxAttempts)))
            && GivenUp(w, v, k, TaskRecord(r.definition, v.tasks[k].state, r.attempt, None, None, Some(Reported(message))))
            && Appended(w, v, TaskFailed(k, failure, v.tasks[k].state, message), now)
  {
    hide Refreshed, Inv, SettledAs, Apply, Emit, Ownership;
    HolderPasses(w, k, worker, clock);
    FailUnfold(w, k, worker, failure, message, clock, now);
    var s := FailureState(w, w.tasks[k], failure);
    var r := Release(w.tasks[k], s).(lastError := Some(Reported(message)));
    assert Releases(w, k, r);
    ReleaseEffect(w, k, r, TaskFailed(k, failure, s, message), now);
  }

  lemma HolderPasses(w: Flow, k: Name, worker: Name, clock: int)
    requires HoldsLease(w, k, worker, clock)
    ensures Ownership(w, k, worker, clock).None?
  {
  }

  // ---- declaring and cancelling -------------------------------------------------------------------------

  /** A declared task joins at the end, at once settled; no other task moves. */
  lemma AddEffect(w: Flow, d: TaskDefinition, now: int)
    requires Inv(w) && d.key !in w.tasks && forall j :: j in d.dependencies ==> j in w.tasks
    ensures var v := Apply(w, AddTask(d, now));
            && v == w.(order := w.order + [d.key], tasks := v.tasks, events := v.events)
            && v.tasks.Keys == w.tasks.Keys + {d.key}
            && SettledAs(TaskRecord(d, Pending, 0, None, None, None), v.tasks[d.key], v.tasks, w.cancelled)
            && (forall j :: j in w.tasks ==> SettledAs(w.tasks[j], v.tasks[j], v.tasks, w.cancelled))
            && Appended(w, v, TaskCreated(d.key), now)
  {
    hide Sound, Refresh, SettledAs, SameDefinitions, Stable;
    assert Refusal(w, AddTask(d, now)).None?;
    var u := w.(order := w.order + [d.key], tasks := w.tasks[d.key := NewRecord(d)]);
    AddSound(w, d);
    RefreshSound(u);
    SettlesMeaning(u.tasks, Refreshed(u).tasks, w.cancelled);
  }

  /** A cancellation cancels what waits and asks what runs to stop; everything else stays. */
  lemma CancelEffect(w: Flow, now: int, k: Name)
    requires Inv(w)
    ensures var v := Apply(w, RequestCancel(now));
            && v == w.(tasks := v.tasks, events := v.events, cancelled := true) && v.tasks.Keys == w.tasks.Keys
            && Appended(w, v, CancellationAsked, now)
            && (k in w.tasks ==>
                  var r := w.tasks[k];
                  && (r.state == Pending || r.state == Ready ==> v.tasks[k] == r.(state := Cancelled))
                  && (r.state == Running ==> v.tasks[k] == r.(state := CancellationRequested))
                  && (r.state !in {Pending, Ready, Running} ==> v.tasks[k] == r))
  {
    hide Apply, CancelTo, TaskOk;
    CancelUnfold(w, now);
    CancelPointwise(w.tasks, w.order, |w.order|);
    assert w.order[..|w.order|] == w.order;
  }

  /** After any run every task has a name and a budget, and depends on tasks declared before it, each once. */
  lemma DeclaredTasksAreSound(leaseSeconds: int, commands: seq<Command>, i: nat)
    requires i < |RunCommands(leaseSeconds, commands).order|
    ensures var w := RunCommands(leaseSeconds, commands);
            && w.order[i] in w.tasks
            && var d := w.tasks[w.order[i]].definition;
               && d.key == w.order[i] && d.key.text != "" && d.maxAttempts >= 1
               && (forall key :: key in d.dependencies ==> key != d.key && key in w.order[..i])
               && forall m, n :: 0 <= m < n < |d.dependencies| ==> d.dependencies[m] != d.dependencies[n]
  {
    hide RunCommands;
    ReachableInv(leaseSeconds, commands);
    assert DependsOnEarlier(RunCommands(leaseSeconds, commands).tasks, RunCommands(leaseSeconds, commands).order, i);
  }

  // ---- claiming -------------------------------------------------------------------------------------------

  lemma ExpireOneMeaning(w: Flow, k: Name, now: int)
    requires k in w.tasks
    ensures var v := ExpireOne(w, k, now);
            && v == w.(tasks := v.tasks, events := v.events) && k in v.tasks && v.tasks == w.tasks[k := v.tasks[k]]
            && ExpiredAs(w.tasks[k], v.tasks[k], w.cancelled, now)
  {
  }

  lemma {:induction false} ExpiryFrame(w: Flow, n: nat, now: int)
    requires n <= |w.order| && (forall k :: k in w.order ==> k in w.tasks)
    ensures var v := ExpireTo(w, n, now); v == w.(tasks := v.tasks, events := v.events) && v.tasks.Keys == w.tasks.Keys
    decreases n
  {
    hide ExpiredAs, ExpireOne;
    if n > 0 {
      ExpiryFrame(w, n - 1, now);
      ExpireOneMeaning(ExpireTo(w, n - 1, now), w.order[n - 1], now);
    }
  }

  ghost predicate OnceEach(order: seq<Name>) {
    forall i, j :: 0 <= i < j < |order| ==> order[i] != order[j]
  }

  lemma NotBefore(order: seq<Name>, n: nat)
    requires OnceEach(order) && 0 < n <= |order|
    ensures order[n - 1] !in order[..n - 1] && order[..n] == order[..n - 1] + [order[n - 1]]
  {
  }

  lemma {:induction false} ExpiryMeaning(w: Flow, n: nat, now: int, k: Name)
    requires n <= |w.order| && (forall j :: j in w.order ==> j in w.tasks) && OnceEach(w.order) && k in w.tasks
    ensures var v := ExpireTo(w, n, now);
            && k in v.tasks
            && (k in w.order[..n] ==> ExpiredAs(w.tasks[k], v.tasks[k], w.cancelled, now))
            && (k !in w.order[..n] ==> v.tasks[k] == w.tasks[k])
    decreases n
  {
    hide ExpiredAs, ExpireOne, OnceEach;
    if n > 0 {
      ExpiryMeaning(w, n - 1, now, k);
      ExpiryFrame(w, n - 1, now);
      NotBefore(w.order, n);
      ExpireOneMeaning(ExpireTo(w, n - 1, now), w.order[n - 1], now);
    }
  }

  ghost function Notice(k: Name, r: TaskRecord, cancelled: bool, now: int): (s: seq<EventBody>) {
    if !RunsOut(r, now) then []
    else if cancelled then [TaskTerminal(k, Cancelled)]
    else if r.attempt < r.definition.maxAttempts then [LeaseExpired(k)]
    else [TaskTerminal(k, Failed)]
  }

  /** One event for each lease that runs out, in the order of declaration. */
  ghost function Notices(w: Flow, n: nat, now: int): (s: seq<EventBody>)
    requires n <= |w.order| && forall k :: k in w.order ==> k in w.tasks
  {
    if n == 0 then [] else Notices(w, n - 1, now) + Notice(w.order[n - 1], w.tasks[w.order[n - 1]], w.cancelled, now)
  }

  /** `after` continues `before` with these bodies, the next cursors and the time `at`. */
  ghost predicate Logged(before: seq<Event>, after: seq<Event>, bodies: seq<EventBody>, at: int) {
    && |after| == |before| + |bodies| && after[..|before|] == before
    && forall i :: |before| <= i < |after| ==> after[i] == Event(i + 1, bodies[i - |before|], at)
  }

  lemma LoggedMore(a: seq<Event>, b: seq<Event>, c: seq<Event>, first: seq<EventBody>, second: seq<EventBody>, at: int)
    requires Logged(a, b, first, at) && Logged(b, c, second, at)
    ensures Logged(a, c, first + second, at)
  {
    assert c[..|a|] == b[..|a|];
    forall i | |a| <= i < |c| ensures c[i] == Event(i + 1, (first + second)[i - |a|], at) {
      if i < |b| { assert c[i] == c[..|b|][i]; }
    }
  }

  lemma ExpireOneNotice(w: Flow, k: Name, now: int)
    requires k in w.tasks
    ensures Logged(w.events, ExpireOne(w, k, now).events, Notice(k, w.tasks[k], w.cancelled, now), now)
  {
  }

  lemma {:induction false} ExpiryNotices(w: Flow, n: nat, now: int)
    requires n <= |w.order| && (forall k :: k in w.order ==> k in w.tasks)
    requires OnceEach(w.order)
    ensures Logged(w.events, ExpireTo(w, n, now).events, Notices(w, n, now), now)
    decreases n
  {
    hide ExpiredAs, ExpireOne, Notice, OnceEach;
    if n > 0 {
      hide Logged;
      ExpiryNotices(w, n - 1, now);
      ExpiryFrame(w, n - 1, now);
      ExpiryMeaning(w, n - 1, now, w.order[n - 1]);
      NotBefore(w.order, n);
      var u, k := ExpireTo(w, n - 1, now), w.order[n - 1];
      ExpireOneNotice(u, k, now);
      LoggedMore(w.events, u.events, ExpireTo(w, n, now).events, Notices(w, n - 1, now), Notice(k, w.tasks[k], w.cancelled, now), now);
    }
  }

  /** The first ready task in the order of declaration, if there is one. */
  ghost predicate PickedAs(settled: Table, order: seq<Name>, taken: Option<Name>) {
    match taken
    case None => forall k :: k in settled ==> settled[k].state != Ready
    case Some(k) =>
      && k in settled && settled[k].state == Ready
      && exists i :: 0 <= i < |order| && order[i] == k
                     && forall j :: 0 <= j < i && order[j] in settled ==> settled[order[j]].state != Ready
  }

  /** The picked task runs for the caller until the lease ends; no other task differs. */
  ghost predicate ClaimedAs(w: Flow, v: Flow, settled: Table, taken: Option<Name>, worker: Name, now: int) {
    match taken
    case None => v.tasks == settled
    case Some(k) =>
      && k in settled
      && v.tasks == settled[k := TaskRecord(settled[k].definition, Running, settled[k].attempt + 1, Some(worker),
                                            Some(now + w.leaseSeconds), settled[k].lastError)]
  }

  ghost function ClaimNotice(settled: Table, taken: Option<Name>, worker: Name): (s: seq<EventBody>)
    requires taken.Some? ==> taken.value in settled
  {
    if taken.Some? then [TaskClaimed(taken.value, worker, settled[taken.value].attempt + 1)] else []
  }

  lemma ClaimUnfold(w: Flow, worker: Name, now: int)
    requires worker.text != ""
    ensures var v := Refreshed(Expire(w, now));
            && (Claimable(w, now).Some? ==> Claimable(w, now).value in v.tasks)
            && Apply(w, ClaimReady(worker, now))
               == match Claimable(w, now) case Some(k) => Take(v, k, worker, now) case None => v
  {
    hide Expire, Refreshed, Take, FirstReady;
  }

  lemma PickMeaning(w: Flow, now: int)
    requires var v := Refreshed(Expire(w, now)); forall k :: k in v.tasks ==> k in v.order
    ensures var v := Refreshed(Expire(w, now)); PickedAs(v.tasks, v.order, Claimable(w, now))
  {
    hide Expire, Refreshed, FirstReady;
    FirstReadyMeaning(Refreshed(Expire(w, now)), 0);
  }

  lemma TakeEffect(w: Flow, v: Flow, worker: Name, now: int)
    requires worker.text != "" && v == Refreshed(Expire(w, now)) && v == w.(tasks := v.tasks, events := v.events)
    ensures var taken := Claimable(w, now);
            var u := Apply(w, ClaimReady(worker, now));
            && (taken.Some? ==> taken.value in v.tasks)
            && u == w.(tasks := u.tasks, events := u.events) && ClaimedAs(w, u, v.tasks, taken, worker, now)
            && Logged(v.events, u.events, ClaimNotice(v.tasks, taken, worker), now)
  {
    hide Expire, Refreshed, Claimable, Apply;
    ClaimUnfold(w, worker, now);
  }

  /** A claim ends the leases that have run out, settles readiness, and takes the first ready task. */
  lemma ClaimEffect(w: Flow, worker: Name, now: int) returns (expired: Table, settled: Table, taken: Option<Name>)
    requires Inv(w) && worker.text != ""
    ensures taken == Claimable(w, now)
    ensures expired.Keys == w.tasks.Keys && settled.Keys == w.tasks.Keys
    ensures forall k :: k in w.tasks ==> ExpiredAs(w.tasks[k], expired[k], w.cancelled, now)
    ensures forall k :: k in w.tasks ==> SettledAs(expired[k], settled[k], settled, w.cancelled)
    ensures var v := Apply(w, ClaimReady(worker, now));
            && v == w.(tasks := v.tasks, events := v.events) && PickedAs(settled, w.order, taken) && ClaimedAs(w, v, settled, taken, worker, now)
            && (forall k :: k in w.order ==> k in w.tasks)
            && Logged(w.events, v.events, Notices(w, |w.order|, now) + ClaimNotice(settled, taken, worker), now)
  {
    hide ExpireTo, Refresh, Claims, Attempts, TaskOk, DependsOnEarlier, Stable, ExpiredAs, SettledAs, SameDefinitions, Notices,
         Apply, PickedAs, ClaimedAs, Logged;
    ExpiryFrame(w, |w.order|, now);
    forall k | k in w.tasks ensures ExpiredAs(w.tasks[k], Expire(w, now).tasks[k], w.cancelled, now) {
      ExpiryMeaning(w, |w.order|, now, k);
    }
    ExpiryNotices(w, |w.order|, now);
    ExpireSound(w, |w.order|, now);
    assert w.order[..|w.order|] == w.order;
    var u := Expire(w, now);
    RefreshSound(u);
    var v := Refreshed(u);
    SettlesMeaning(u.tasks, v.tasks, w.cancelled);
    expired, settled, taken := u.tasks, v.tasks, Claimable(w, now);
    PickMeaning(w, now);
    TakeEffect(w, v, worker, now);
    LoggedMore(w.events, v.events, Apply(w, ClaimReady(worker, now)).events, Notices(w, |w.order|, now),
               ClaimNotice(settled, taken, worker), now);
  }

  // ---- leased tasks -------------------------------------------------------------------------------------------

  /** What moves a task that a worker holds: its holder, the end of its lease at a claim, or a cancellation. */
  ghost predicate MovesHeld(w: Flow, k: Name, c: Command)
    requires k in w.tasks
  {
    match c
    case AddTask(_, _) => false
    case ClaimReady(worker, now) => worker.text != "" && RunsOut(w.tasks[k], now)
    case Heartbeat(key, worker, clock, now) =>
      key == k && HoldsLease(w, k, worker, clock) && w.tasks[k].expires != Some(now + w.leaseSeconds)
    case Succeed(key, worker, clock, _) => key == k && HoldsLease(w, k, worker, clock)
    case Fail(key, worker, _, message, clock, _) => key == k && message.text != "" && HoldsLease(w, k, worker, clock)
    case RequestCancel(_) => w.tasks[k].state == Running
  }

  lemma SettledHeld(before: TaskRecord, after: TaskRecord, tasks: Table, cancelled: bool)
    requires SettledAs(before, after, tasks, cancelled) && before.state != Pending
    ensures after == before
  {
  }

  lemma ClaimMovesHeld(w: Flow, worker: Name, now: int, k: Name)
    requires Inv(w) && worker.text != "" && k in w.tasks && HeldByAWorker(w.tasks[k])
    ensures var v := Apply(w, ClaimReady(worker, now));
            k in v.tasks && (v.tasks[k] != w.tasks[k] <==> RunsOut(w.tasks[k], now))
  {
    hide Inv, Apply, SettledAs, Notices, Logged, Claimable;
    var expired, settled, taken := ClaimEffect(w, worker, now);
    assert ExpiredAs(w.tasks[k], expired[k], w.cancelled, now);
    SettledHeld(expired[k], settled[k], settled, w.cancelled);
  }

  lemma ActMovesHeld(w: Flow, c: Command, k: Name)
    requires Inv(w) && k in w.tasks && HeldByAWorker(w.tasks[k]) && Acts(c)
    ensures k in Apply(w, c).tasks && (Apply(w, c).tasks[k] != w.tasks[k] <==> MovesHeld(w, k, c))
  {
    hide Inv, Apply, SettledAs, Refusal;
    if SaysWhy(c) && HoldsLease(w, c.key, c.worker, c.clock) {
      match c {
        case Heartbeat(key, worker, clock, now) => HeartbeatEffect(w, key, worker, clock, now);
        case Succeed(key, worker, clock, now) =>
          SuccessEffect(w, key, worker, clock, now);
          if key != k { SettledHeld(w.tasks[k], Apply(w, c).tasks[k], Apply(w, c).tasks, w.cancelled); }
        case Fail(key, worker, failure, message, clock, now) =>
          FailureEffect(w, key, worker, failure, message, clock, now);
          if key != k { SettledHeld(w.tasks[k], Apply(w, c).tasks[k], Apply(w, c).tasks, w.cancelled); }
      }
    } else {
      NotHeldRefused(w, c);
      RefusedUnchanged(w, c);
    }
  }

  lemma NotHeldRefused(w: Flow, c: Command)
    requires Inv(w) && Acts(c) && !(SaysWhy(c) && HoldsLease(w, c.key, c.worker, c.clock))
    ensures Refusal(w, c).Some?
  {
    hide Inv;
    LeaseFields(w, c.key);
  }

  /** A task that a worker holds changes exactly through its holder, through a claim after its lease has run
      out, or when a cancellation asks it to stop. */
  lemma HeldTaskMovesExactlyWhen(w: Flow, c: Command, k: Name)
    requires Inv(w) && k in w.tasks && HeldByAWorker(w.tasks[k])
    ensures k in Apply(w, c).tasks && (Apply(w, c).tasks[k] != w.tasks[k] <==> MovesHeld(w, k, c))
  {
    hide Inv, Apply, SettledAs, Refusal;
    if Acts(c) {
      ActMovesHeld(w, c, k);
    } else if c.RequestCancel? {
      CancelEffect(w, c.now, k);
    } else if Refusal(w, c).Some? {
      RefusedUnchanged(w, c);
      if c.ClaimReady? { RefusedExactlyWhen(w, c, Refusal(w, c).value); }
    } else if c.ClaimReady? {
      RefusedExactlyWhen(w, c, WorkerRequired);
      ClaimMovesHeld(w, c.worker, c.now, k);
    } else {
      RefusedExactlyWhen(w, c, KeyExists);
      RefusedExactlyWhen(w, c, MissingDependency);
      AddEffect(w, c.definition, c.now);
      SettledHeld(w.tasks[k], Apply(w, c).tasks[k], Apply(w, c).tasks, w.cancelled);
    }
  }
}
