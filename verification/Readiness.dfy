/** One insertion-order pass over the task DAG computes the readiness fixpoint. */
module Readiness {
  import opened Names
  import opened Workflow

  /** `order` lists the keys of `tasks` once each, every task after its dependencies. */
  ghost predicate Ordered(tasks: Table, order: seq<Name>) {
    && (forall k :: k in order <==> k in tasks)
    && (forall i, j :: 0 <= i < j < |order| ==> order[i] != order[j])
    && (forall k :: k in tasks ==> tasks[k].definition.key == k)
    && (forall i :: 0 <= i < |order| ==> DependsOnEarlier(tasks, order, i))
  }

  ghost predicate DependsOnEarlier(tasks: Table, order: seq<Name>, i: nat)
    requires i < |order|
  {
    order[i] in tasks && forall d :: d in tasks[order[i]].definition.dependencies ==> d in order[..i]
  }

  ghost predicate SameDefinitions(a: Table, b: Table) {
    a.Keys == b.Keys && forall k :: k in a ==> a[k].definition == b[k].definition
  }

  /** `result` is what readiness makes of `tasks`, judged by `result` itself. */
  ghost predicate Settles(tasks: Table, result: Table, cancelled: bool) {
    && tasks.Keys == result.Keys
    && forall k :: k in tasks ==> result[k] == Decide(tasks[k], result, cancelled)
  }

  ghost predicate Stable(tasks: Table, cancelled: bool) {
    Settles(tasks, tasks, cancelled)
  }

  /** Two tables that agree on what readiness looks at. */
  ghost predicate AgreeOn(a: Table, b: Table, keys: seq<Name>) {
    forall d :: d in keys ==>
      && (d in a <==> d in b)
      && (d in a ==> (IsDead(a[d].state) <==> IsDead(b[d].state)) && (a[d].state.Succeeded? <==> b[d].state.Succeeded?))
  }

  lemma AgreeDecide(r: TaskRecord, a: Table, b: Table, cancelled: bool)
    requires AgreeOn(a, b, r.definition.dependencies)
    ensures Decide(r, a, cancelled) == Decide(r, b, cancelled)
  {
  }

  lemma {:induction false} RefreshToKeeps(tasks: Table, order: seq<Name>, n: nat, cancelled: bool)
    requires n <= |order|
    ensures SameDefinitions(tasks, RefreshTo(tasks, order, n, cancelled))
    ensures forall k :: k in tasks && k !in order[..n] ==> RefreshTo(tasks, order, n, cancelled)[k] == tasks[k]
  {
    hide AnyDead, AllSucceeded;
    if n > 0 {
      hide RefreshTo;
      RefreshStep(tasks, order, n, cancelled);
      RefreshToKeeps(tasks, order, n - 1, cancelled);
      assert order[..n] == order[..n - 1] + [order[n - 1]];
    }
  }

  /** Processing `k` does not change what any task up to it looks at. */
  lemma StepAgrees(tasks: Table, order: seq<Name>, t: Table, n: nat, i: nat, r: TaskRecord)
    requires Ordered(tasks, order) && i < n <= |order|
    ensures AgreeOn(t, t[order[n - 1] := r], tasks[order[i]].definition.dependencies)
  {
    assert DependsOnEarlier(tasks, order, i);
    forall d | d in tasks[order[i]].definition.dependencies ensures d != order[n - 1] {
      var j :| 0 <= j < i && order[j] == d;
    }
  }

  lemma {:induction false} RefreshToSettles(tasks: Table, order: seq<Name>, n: nat, cancelled: bool, i: nat)
    requires Ordered(tasks, order) && i < n <= |order|
    ensures var r := RefreshTo(tasks, order, n, cancelled);
            order[i] in r && r[order[i]] == Decide(tasks[order[i]], r, cancelled)
  {
    hide Decide, RefreshTo, AgreeOn, DependsOnEarlier;
    var t, r := RefreshTo(tasks, order, n - 1, cancelled), RefreshTo(tasks, order, n, cancelled);
    var k := order[n - 1];
    RefreshStep(tasks, order, n, cancelled);
    RefreshToKeeps(tasks, order, n - 1, cancelled);
    assert order[i] in tasks && k in tasks;
    StepAgrees(tasks, order, t, n, i, r[k]);
    assert t[k := r[k]] == r;
    AgreeDecide(tasks[order[i]], t, r, cancelled);
    if i < n - 1 {
      RefreshToSettles(tasks, order, n - 1, cancelled, i);
    } else {
      assert k !in order[..n - 1];
    }
  }

  /** The single pass reaches a fixpoint of the readiness rule ... */
  lemma RefreshSettles(tasks: Table, order: seq<Name>, cancelled: bool)
    requires Ordered(tasks, order)
    ensures Settles(tasks, Refresh(tasks, order, cancelled), cancelled)
    ensures SameDefinitions(tasks, Refresh(tasks, order, cancelled))
  {
    hide RefreshTo, Decide;
    RefreshToKeeps(tasks, order, |order|, cancelled);
    var r := Refresh(tasks, order, cancelled);
    forall k | k in tasks ensures r[k] == Decide(tasks[k], r, cancelled) {
      var i :| 0 <= i < |order| && order[i] == k;
      RefreshToSettles(tasks, order, |order|, cancelled, i);
    }
  }

  lemma {:induction false} SettledUnique(tasks: Table, order: seq<Name>, a: Table, b: Table, cancelled: bool, i: nat)
    requires Ordered(tasks, order) && Settles(tasks, a, cancelled) && Settles(tasks, b, cancelled) && i < |order|
    ensures a[order[i]] == b[order[i]]
    decreases i
  {
    hide Decide;
    var k := order[i];
    assert DependsOnEarlier(tasks, order, i);
    forall d | d in tasks[k].definition.dependencies ensures d in a && d in b && a[d] == b[d] {
      var j :| 0 <= j < i && order[j] == d;
      SettledUnique(tasks, order, a, b, cancelled, j);
    }
    AgreeDecide(tasks[k], a, b, cancelled);
  }

  /** ... and the fixpoint is unique, so any table that settles `tasks` is the pass's result. */
  lemma RefreshUnique(tasks: Table, order: seq<Name>, result: Table, cancelled: bool)
    requires Ordered(tasks, order) && Settles(tasks, result, cancelled)
    ensures Refresh(tasks, order, cancelled) == result
  {
    hide Decide, Refresh;
    RefreshSettles(tasks, order, cancelled);
    var r := Refresh(tasks, order, cancelled);
    forall k | k in r ensures r[k] == result[k] {
      var i :| 0 <= i < |order| && order[i] == k;
      SettledUnique(tasks, order, r, result, cancelled, i);
    }
  }

  /** A second pass changes nothing. */
  lemma RefreshStable(tasks: Table, order: seq<Name>, cancelled: bool)
    requires Ordered(tasks, order)
    ensures Stable(Refresh(tasks, order, cancelled), cancelled)
    ensures Ordered(Refresh(tasks, order, cancelled), order)
  {
    hide Refresh, AnyDead, AllSucceeded;
    RefreshSettles(tasks, order, cancelled);
    OrderedByDefinitions(tasks, Refresh(tasks, order, cancelled), order);
  }

  lemma OrderedByDefinitions(a: Table, b: Table, order: seq<Name>)
    requires Ordered(a, order) && SameDefinitions(a, b)
    ensures Ordered(b, order)
  {
    forall i | 0 <= i < |order| ensures DependsOnEarlier(b, order, i) {
      assert DependsOnEarlier(a, order, i);
    }
  }

  /** Changing a task that is live before and after does not move any other task. */
  lemma StableTouch(tasks: Table, order: seq<Name>, cancelled: bool, k: Name, r: TaskRecord)
    requires Ordered(tasks, order) && Stable(tasks, cancelled) && k in tasks && r.definition == tasks[k].definition
    requires !IsDead(tasks[k].state) && !tasks[k].state.Succeeded? && !tasks[k].state.Pending?
    requires !IsDead(r.state) && !r.state.Succeeded? && !r.state.Pending?
    ensures Stable(tasks[k := r], cancelled)
    ensures Ordered(tasks[k := r], order)
  {
    hide Decide;
    var t := tasks[k := r];
    OrderedByDefinitions(tasks, t, order);
    forall j | j in t ensures t[j] == Decide(t[j], t, cancelled) {
      AgreeDecide(t[j], tasks, t, cancelled);
      DecideSettled(r, t, cancelled);
    }
  }

  lemma DecideSettled(r: TaskRecord, tasks: Table, cancelled: bool)
    requires !r.state.Pending?
    ensures Decide(r, tasks, cancelled) == r
  {
  }

  lemma {:induction false} TouchedEarly(a: Table, order: seq<Name>, cancelled: bool, x: Name, r: TaskRecord, i: nat)
    requires Ordered(a, order) && x in a && Leased(a[x].state) && !r.state.Pending? && r.definition == a[x].definition
    requires i < |order| && order[i] != x
    ensures var k := order[i];
            var early, late := Refresh(a, order, cancelled), Refresh(a[x := r], order, cancelled);
            && k in early && k in late
            && (early[k] == a[k] || early[k] == late[k])
            && (IsDead(early[k].state) ==> IsDead(late[k].state))
            && (early[k].state.Succeeded? ==> late[k].state.Succeeded?)
    decreases i
  {
    hide Refresh;
    var k, b := order[i], a[x := r];
    var early, late := Refresh(a, order, cancelled), Refresh(b, order, cancelled);
    OrderedByDefinitions(a, b, order);
    RefreshSettles(a, order, cancelled);
    RefreshSettles(b, order, cancelled);
    var deps := a[k].definition.dependencies;
    assert DependsOnEarlier(a, order, i);
    forall d | d in deps
      ensures d in early && d in late
      ensures d != x ==> (IsDead(early[d].state) ==> IsDead(late[d].state)) && (early[d].state.Succeeded? ==> late[d].state.Succeeded?)
      ensures d == x ==> !IsDead(early[d].state) && !early[d].state.Succeeded?
    {
      var j :| 0 <= j < i && order[j] == d;
      if d != x { TouchedEarly(a, order, cancelled, x, r, j); }
    }
    if a[k].state.Pending? && AnyDead(early, deps) {
      var d :| d in deps && d in early && IsDead(early[d].state);
      assert AnyDead(late, deps);
    } else if a[k].state.Pending? && AllSucceeded(early, deps) {
      assert AllSucceeded(late, deps);
      assert !AnyDead(late, deps);
    }
  }

  /** Settling first does not matter: a leased task that then changes, settled again, gives
      what settling once after the change gives. */
  lemma RefreshAbsorbs(a: Table, order: seq<Name>, cancelled: bool, x: Name, r: TaskRecord)
    requires Ordered(a, order) && x in a && Leased(a[x].state) && !r.state.Pending? && r.definition == a[x].definition
    ensures var early := Refresh(a, order, cancelled);
            && x in early && early[x] == a[x]
            && Refresh(early[x := r], order, cancelled) == Refresh(a[x := r], order, cancelled)
  {
    hide Refresh, AnyDead, AllSucceeded;
    var b := a[x := r];
    var early, late := Refresh(a, order, cancelled), Refresh(b, order, cancelled);
    OrderedByDefinitions(a, b, order);
    RefreshSettles(a, order, cancelled);
    RefreshSettles(b, order, cancelled);
    var mixed := early[x := r];
    OrderedByDefinitions(a, mixed, order);
    forall k | k in mixed ensures late[k] == Decide(mixed[k], late, cancelled) {
      if k != x {
        var i :| 0 <= i < |order| && order[i] == k;
        TouchedEarly(a, order, cancelled, x, r, i);
      }
    }
    RefreshUnique(mixed, order, late, cancelled);
  }
}
