/** What holds of every close run, and when an approved run really is complete. */
module CloseRunTheorems {
  import opened Names
  import opened Journals
  import opened CloseRuns
  import PlaidSync
  import PlaidSyncTheorems

  ghost function After(d: Deployment, cs: seq<Command>): Run {
    if cs == [] then NewRun() else Apply(d, After(d, cs[..|cs| - 1]), cs[|cs| - 1])
  }

  // ---- the invariant ----------------------------------------------------------------------------------

  predicate Frozen(s: RunState) { s == AwaitingApproval || s == Applying || s == ActionFailed || s == Approved }

  predicate Acting(s: RunState) { s == Applying || s == ActionFailed || s == Approved }

  /** Frozen from complete batches of the deployment's own environment, naming nothing twice. */
  ghost predicate SoundSnapshot(d: Deployment, s: Snapshot) {
    exists batches :: Buildable(d.mode, batches) && s == SnapshotOf(d, s.id, batches)
  }

  ghost predicate SoundAction(r: Run, id: Name) {
    id in r.actions ==>
      var a := r.actions[id];
      && Proposal(a.proposal, a.expected.journal) in r.proposals
      && a.expected.action == id
      && (a.status == Succeeded ==> a.journalId.Some?)
  }

  ghost predicate SameProposal(actions: map<Name, Action>, a: Name, b: Name)
    requires a in actions && b in actions
  {
    actions[a].proposal == actions[b].proposal
  }

  ghost predicate Inv(d: Deployment, r: Run) {
    && (r.state == Running || Frozen(r.state) ==> r.snapshot.Some? && SoundSnapshot(d, r.snapshot.value))
    && (Frozen(r.state) ==> r.snapshot.Some? && r.package == Some(PackageOf(r.snapshot.value, r.proposals)))
    && (!Frozen(r.state) ==> r.package.None?)
    && (Acting(r.state) ==> r.approver == Some(d.controller))
    && (r.actions != map[] ==> Acting(r.state) && r.proposals != [])
    && (forall id :: SoundAction(r, id))
    && (forall a, b :: a in r.actions && b in r.actions && SameProposal(r.actions, a, b) ==> a == b)
    && (r.state == Approved ==> AllSucceeded(r.actions))
  }

  lemma BuildKeeps(d: Deployment, r: Run, id: Name, batches: seq<SourceBatch>)
    requires Inv(d, r) && Built(d, r, id, batches).Some?
    ensures Inv(d, Built(d, r, id, batches).value)
  {
    hide Buildable, SoundAction;
    var s := SnapshotOf(d, id, batches);
    assert SoundSnapshot(d, s);
    var q := Built(d, r, id, batches).value;
    assert q.actions == map[];
    forall a ensures SoundAction(q, a) { NoActionSound(q, a); }
  }

  lemma NoActionSound(r: Run, a: Name)
    requires r.actions == map[]
    ensures SoundAction(r, a)
  {
  }

  lemma PrepareKeeps(d: Deployment, r: Run, p: Proposal, id: Name)
    requires Inv(d, r)
    ensures Inv(d, Apply(d, r, PrepareAction(p, id)))
  {
    hide SoundSnapshot, Buildable, PackageOf;
    var q := Apply(d, r, PrepareAction(p, id));
    forall a ensures SoundAction(q, a) { assert SoundAction(r, a); }
  }

  lemma ReconcileKeeps(d: Deployment, r: Run, c: Command)
    requires Inv(d, r) && c.ReconcileAction?
    ensures Inv(d, Apply(d, r, c))
  {
    hide SoundSnapshot, Buildable, PackageOf;
    var q := Apply(d, r, c);
    forall a ensures SoundAction(q, a) { assert SoundAction(r, a); }
    forall a, b | a in q.actions && b in q.actions && SameProposal(q.actions, a, b) ensures a == b {
      assert SameProposal(r.actions, a, b);
    }
  }

  lemma ApplyKeepsInv(d: Deployment, r: Run, c: Command)
    requires Inv(d, r)
    ensures Inv(d, Apply(d, r, c))
  {
    hide SoundSnapshot, Buildable, Built, PackageOf, Reconciled, SameProposal;
    match c {
      case BuildSnapshot(id, batches) =>
        if Built(d, r, id, batches).Some? { BuildKeeps(d, r, id, batches); }
      case Synchronize(id, read) =>
        var started := if r.state == Created then r.(state := Synchronizing) else r;
        if started.state == Synchronizing {
          if read.Some? && Built(d, started, id, read.value).Some? { BuildKeeps(d, started, id, read.value); }
        }
      case PrepareAction(p, id) => PrepareKeeps(d, r, p, id);
      case ReconcileAction(_, _, _, _) => ReconcileKeeps(d, r, c);
      case _ =>
        var q := Apply(d, r, c);
        forall a ensures SoundAction(q, a) { assert SoundAction(r, a); }
        forall a, b | a in q.actions && b in q.actions && SameProposal(q.actions, a, b) ensures a == b {
          assert q.actions == r.actions;
        }
    }
  }

  lemma {:induction false} ReachableInv(d: Deployment, cs: seq<Command>)
    ensures Inv(d, After(d, cs))
  {
    hide Apply;
    if cs == [] {
      forall a ensures SoundAction(NewRun(), a) { NoActionSound(NewRun(), a); }
    } else {
      hide Inv;
      ReachableInv(d, cs[..|cs| - 1]);
      ApplyKeepsInv(d, After(d, cs[..|cs| - 1]), cs[|cs| - 1]);
    }
  }

  // ---- what an approval covers ------------------------------------------------------------------------------

  /** Once frozen for review, nothing the controller was shown can change. */
  lemma ApplyKeepsPackage(d: Deployment, r: Run, c: Command)
    requires Frozen(r.state)
    ensures var q := Apply(d, r, c);
            Frozen(q.state) && q.snapshot == r.snapshot && q.package == r.package && q.proposals == r.proposals
    ensures Acting(r.state) ==> Acting(Apply(d, r, c).state)
  {
    hide Buildable, PackageOf, HasAction, AllSucceeded;
  }

  lemma {:induction false} PackageIsFrozen(d: Deployment, cs: seq<Command>, n: nat)
    requires n <= |cs| && Frozen(After(d, cs[..n]).state)
    ensures var r, q := After(d, cs[..n]), After(d, cs);
            Frozen(q.state) && q.snapshot == r.snapshot && q.package == r.package && q.proposals == r.proposals
    ensures Acting(After(d, cs[..n]).state) ==> Acting(After(d, cs).state)
  {
    hide Apply;
    if n == |cs| {
      assert cs[..n] == cs;
    } else {
      var rest := cs[..|cs| - 1];
      assert rest[..n] == cs[..n];
      PackageIsFrozen(d, rest, n);
      ApplyKeepsPackage(d, After(d, rest), cs[|cs| - 1]);
    }
  }

  /** A run in application, failed or approved was approved by the controller, holds a sound
      snapshot, and its package is exactly that snapshot with the run's proposals. */
  lemma ActingRunIsBacked(d: Deployment, cs: seq<Command>)
    requires Acting(After(d, cs).state)
    ensures var r := After(d, cs);
            && r.approver == Some(d.controller) && r.snapshot.Some? && SoundSnapshot(d, r.snapshot.value)
            && r.package == Some(PackageOf(r.snapshot.value, r.proposals))
  {
    hide After, SoundSnapshot, PackageOf, SoundAction, SameProposal;
    ReachableInv(d, cs);
  }

  // ---- what approved means -----------------------------------------------------------------------------------

  /** Every approved proposal was carried out: a succeeded action carries its journal. */
  ghost predicate CarriedOut(r: Run) {
    forall p :: p in r.proposals ==>
      exists a :: a in r.actions && Carries(r.actions[a], p) && r.actions[a].status == Succeeded
  }

  predicate Carries(a: Action, p: Proposal) {
    a.proposal == p.id && a.expected.journal == p.journal
  }

  ghost predicate AllPrepared(r: Run) {
    forall p :: p in r.proposals ==> HasAction(r.actions, p.id)
  }

  /** No two proposals share an id with different journals. */
  ghost predicate OneJournalPerId(ps: seq<Proposal>) {
    forall p, q :: p in ps && q in ps && p.id == q.id ==> p.journal == q.journal
  }

  /** An approved run carried everything out exactly when everything had been prepared and no
      id stands for two journals. */
  lemma ApprovedIsCompleteExactlyWhen(d: Deployment, cs: seq<Command>)
    requires After(d, cs).state == Approved
    ensures CarriedOut(After(d, cs)) <==> AllPrepared(After(d, cs)) && OneJournalPerId(After(d, cs).proposals)
  {
    hide After, SoundSnapshot, PackageOf;
    ReachableInv(d, cs);
    CompleteExactlyWhen(d, After(d, cs));
  }

  lemma CompleteExactlyWhen(d: Deployment, r: Run)
    requires Inv(d, r) && r.state == Approved
    ensures CarriedOut(r) <==> AllPrepared(r) && OneJournalPerId(r.proposals)
  {
    hide SoundSnapshot, PackageOf;
    if CarriedOut(r) {
      forall p, q | p in r.proposals && q in r.proposals && p.id == q.id ensures p.journal == q.journal {
        var a :| a in r.actions && Carries(r.actions[a], p);
        var b :| b in r.actions && Carries(r.actions[b], q);
        assert SameProposal(r.actions, a, b);
      }
    }
    if AllPrepared(r) && OneJournalPerId(r.proposals) {
      forall p | p in r.proposals
        ensures exists a :: a in r.actions && Carries(r.actions[a], p) && r.actions[a].status == Succeeded
      {
        assert HasAction(r.actions, p.id);
        var a :| a in r.actions && r.actions[a].proposal == p.id;
        assert SoundAction(r, a);
        assert Carries(r.actions[a], p);
      }
    }
  }

  /** No read-back is taken before every approved proposal has its action. */
  ghost predicate PreparedFirst(d: Deployment, cs: seq<Command>) {
    forall n :: 0 <= n < |cs| && cs[n].ReconcileAction? ==> AllPrepared(After(d, cs[..n]))
  }

  lemma ActionStays(d: Deployment, r: Run, c: Command, a: Name)
    requires Frozen(r.state) && a in r.actions
    ensures var q := Apply(d, r, c); a in q.actions && q.actions[a].proposal == r.actions[a].proposal
  {
    hide Buildable, AllSucceeded, HasAction;
    match c {
      case ReconcileAction(action, journalId, narration, request) =>
        if action in r.actions { assert Apply(d, r, c) == Reconciled(r, action, journalId, narration, request); }
      case _ =>
    }
  }

  lemma PreparedStays(d: Deployment, r: Run, c: Command)
    requires Frozen(r.state) && AllPrepared(r)
    ensures AllPrepared(Apply(d, r, c))
  {
    hide Apply;
    var q := Apply(d, r, c);
    ApplyKeepsPackage(d, r, c);
    forall p | p in q.proposals ensures HasAction(q.actions, p.id) {
      assert p in r.proposals;
      var a :| a in r.actions && r.actions[a].proposal == p.id;
      ActionStays(d, r, c, a);
    }
  }

  lemma {:induction false} PreparedFirstApproves(d: Deployment, cs: seq<Command>)
    requires PreparedFirst(d, cs)
    ensures After(d, cs).state == Approved ==> AllPrepared(After(d, cs))
  {
    hide AllPrepared, SoundSnapshot, PackageOf, SoundAction, SameProposal, Apply;
    if cs != [] {
      var rest, c := cs[..|cs| - 1], cs[|cs| - 1];
      forall n | 0 <= n < |rest| && rest[n].ReconcileAction? ensures AllPrepared(After(d, rest[..n])) {
        assert rest[n] == cs[n] && rest[..n] == cs[..n];
      }
      PreparedFirstApproves(d, rest);
      var r := After(d, rest);
      if Apply(d, r, c).state == Approved {
        if r.state != Approved { EntersApproved(d, r, c); }
        if r.state == Approved || c.ReconcileAction? {
          assert cs[..|cs| - 1] == rest;
          ReachableInv(d, rest);
          if Frozen(r.state) {
            PreparedStays(d, r, c);
          } else {
            NoActionNoApproval(d, r, c);
          }
        } else {
          NothingToPrepare(d, r, c);
        }
      }
    }
  }

  lemma EntersApproved(d: Deployment, r: Run, c: Command)
    requires Apply(d, r, c).state == Approved && r.state != Approved
    ensures c.ReconcileAction? || (c.Approve? && r.proposals == [])
  {
    hide Buildable, PackageOf;
  }

  lemma NoActionNoApproval(d: Deployment, r: Run, c: Command)
    requires Inv(d, r) && c.ReconcileAction? && !Frozen(r.state)
    ensures Apply(d, r, c) == r
  {
    hide SoundSnapshot, PackageOf, SoundAction, SameProposal;
  }

  lemma NothingToPrepare(d: Deployment, r: Run, c: Command)
    requires c.Approve? && r.proposals == []
    ensures AllPrepared(Apply(d, r, c))
  {
  }

  /** When every action is prepared before the first read-back, an approved run carried
      everything out exactly when no id stands for two journals. */
  lemma ApprovedAfterPreparingAll(d: Deployment, cs: seq<Command>)
    requires PreparedFirst(d, cs) && After(d, cs).state == Approved
    ensures CarriedOut(After(d, cs)) <==> OneJournalPerId(After(d, cs).proposals)
  {
    hide After, CarriedOut, AllPrepared, PreparedFirst, OneJournalPerId;
    PreparedFirstApproves(d, cs);
    ApprovedIsCompleteExactlyWhen(d, cs);
  }

  // ---- how long an approval lasts ---------------------------------------------------------------------------

  /** A lost answer for a recorded action, or one that is not what the action expects. */
  predicate TakesBack(r: Run, c: Command) {
    && c.ReconcileAction? && c.action in r.actions
    && (c.journalId.None? || c.narration != Some(r.actions[c.action].expected) || c.request != Some(r.actions[c.action].expected))
  }

  /** An approved run leaves that state exactly by a lost or a wrong answer for one of its actions. */
  lemma ApprovalEndsExactlyWhen(d: Deployment, r: Run, c: Command)
    requires Inv(d, r) && r.state == Approved
    ensures Apply(d, r, c).state != Approved <==> TakesBack(r, c)
  {
    hide SoundSnapshot, Buildable, PackageOf, SoundAction, SameProposal, HasAction;
  }

  /** From an approved point of a run on, every later state is approved exactly when no later
      command is such an answer. */
  lemma {:induction false} StaysApprovedExactlyWhen(d: Deployment, cs: seq<Command>, n: nat)
    requires n <= |cs| && After(d, cs[..n]).state == Approved
    ensures (forall k :: n <= k <= |cs| ==> After(d, cs[..k]).state == Approved)
       <==> (forall m :: n <= m < |cs| ==> !TakesBack(After(d, cs[..m]), cs[m]))
  {
    hide Apply, After, Inv, TakesBack;
    if forall k :: n <= k <= |cs| ==> After(d, cs[..k]).state == Approved {
      forall m | n <= m < |cs| ensures !TakesBack(After(d, cs[..m]), cs[m]) {
        assert After(d, cs[..m]).state == Approved && After(d, cs[..m + 1]).state == Approved;
        NextState(d, cs, m);
      }
    }
    if forall m :: n <= m < |cs| ==> !TakesBack(After(d, cs[..m]), cs[m]) {
      forall k | n <= k <= |cs| ensures After(d, cs[..k]).state == Approved { ApprovedUpTo(d, cs, n, k); }
    }
  }

  lemma NextState(d: Deployment, cs: seq<Command>, m: nat)
    requires m < |cs| && After(d, cs[..m]).state == Approved
    ensures After(d, cs[..m + 1]).state != Approved <==> TakesBack(After(d, cs[..m]), cs[m])
  {
    hide Apply, After, Inv, TakesBack;
    ReachableInv(d, cs[..m]);
    ApprovalEndsExactlyWhen(d, After(d, cs[..m]), cs[m]);
    assert cs[..m + 1] == cs[..m] + [cs[m]];
    AfterStep(d, cs[..m], cs[m]);
  }

  lemma {:induction false} ApprovedUpTo(d: Deployment, cs: seq<Command>, n: nat, k: nat)
    requires n <= k <= |cs| && After(d, cs[..n]).state == Approved
    requires forall m :: n <= m < k ==> !TakesBack(After(d, cs[..m]), cs[m])
    ensures After(d, cs[..k]).state == Approved
  {
    hide After, TakesBack;
    if n < k {
      ApprovedUpTo(d, cs, n, k - 1);
      NextState(d, cs, k - 1);
    }
  }

  // ---- runs that fall short --------------------------------------------------------------------------------

  lemma AfterStep(d: Deployment, cs: seq<Command>, c: Command)
    ensures After(d, cs + [c]) == Apply(d, After(d, cs), c)
  {
    assert (cs + [c])[..|cs|] == cs;
  }

  /** A run up to the approval of `ps` by the controller. */
  function UpToApproval(d: Deployment, snapshot: Name, batches: seq<SourceBatch>, ps: seq<Proposal>): seq<Command> {
    [BeginSync] + [BuildSnapshot(snapshot, batches)] + [PrepareForReview(ps)]
    + [Approve(d.controller, PackageOf(SnapshotOf(d, snapshot, batches), ps))]
  }

  lemma ReachesApplying(d: Deployment, snapshot: Name, batches: seq<SourceBatch>, ps: seq<Proposal>)
    requires Buildable(d.mode, batches) && ps != []
    ensures var s := SnapshotOf(d, snapshot, batches);
            After(d, UpToApproval(d, snapshot, batches, ps))
            == Run(Applying, Some(s), Some(PackageOf(s, ps)), ps, Some(d.controller), map[])
  {
    hide Buildable, PackageOf, SnapshotOf, After;
    var s := SnapshotOf(d, snapshot, batches);
    var c1, c2, c3 := BuildSnapshot(snapshot, batches), PrepareForReview(ps), Approve(d.controller, PackageOf(s, ps));
    AfterNothing(d);
    AfterStep(d, [], BeginSync);
    AfterStep(d, [BeginSync], c1);
    AfterStep(d, [BeginSync] + [c1], c2);
    AfterStep(d, [BeginSync] + [c1] + [c2], c3);
    var none: seq<Command> := [];
    assert none + [BeginSync] == [BeginSync];
  }

  lemma AfterNothing(d: Deployment)
    ensures After(d, []) == NewRun()
  {
  }

  /** Preparing one action and reconciling it with the right answer. */
  function DoneWith(p: Proposal, id: Name, journal: Name): seq<Command> {
    [PrepareAction(p, id)] + [ReconcileAction(id, Some(journal), Some(Expected(id, p.journal)), Some(Expected(id, p.journal)))]
  }

  /** Preparing and reconciling one of two approved proposals approves the run with the other
      untouched, and a later lost answer takes the approval back, as does a wrong one. */
  lemma ApprovedTooEarlyAndTakenBack(d: Deployment, snapshot: Name, batches: seq<SourceBatch>, p: Proposal, q: Proposal, id: Name, journal: Name)
    requires Buildable(d.mode, batches) && p.id != q.id
    ensures var cs := UpToApproval(d, snapshot, batches, [p, q]) + DoneWith(p, id, journal);
            && After(d, cs).state == Approved && !CarriedOut(After(d, cs))
            && After(d, cs + [ReconcileAction(id, None, None, None)]).state == ActionFailed
            && forall narration, request :: narration != Some(Expected(id, p.journal)) || request != Some(Expected(id, p.journal)) ==>
                 After(d, cs + [ReconcileAction(id, Some(journal), narration, request)]).state == ActionFailed
  {
    hide Buildable, After, PackageOf, SnapshotOf, UpToApproval, CarriedOut;
    var start := UpToApproval(d, snapshot, batches, [p, q]);
    ReachesApplying(d, snapshot, batches, [p, q]);
    AfterDone(d, start, p, id, journal);
    var cs := start + DoneWith(p, id, journal);
    AfterStep(d, cs, ReconcileAction(id, None, None, None));
    forall narration, request | narration != Some(Expected(id, p.journal)) || request != Some(Expected(id, p.journal))
      ensures After(d, cs + [ReconcileAction(id, Some(journal), narration, request)]).state == ActionFailed
    {
      AfterStep(d, cs, ReconcileAction(id, Some(journal), narration, request));
    }
    OnlyOneCarried(After(d, cs), p, q, id);
  }

  lemma AfterDone(d: Deployment, start: seq<Command>, p: Proposal, id: Name, journal: Name)
    ensures var e := Expected(id, p.journal);
            After(d, start + DoneWith(p, id, journal))
            == Apply(d, Apply(d, After(d, start), PrepareAction(p, id)), ReconcileAction(id, Some(journal), Some(e), Some(e)))
  {
    hide Apply, After;
    var e := Expected(id, p.journal);
    var prepare, reconcile := PrepareAction(p, id), ReconcileAction(id, Some(journal), Some(e), Some(e));
    AfterStep(d, start, prepare);
    AfterStep(d, start + [prepare], reconcile);
    assert start + DoneWith(p, id, journal) == (start + [prepare]) + [reconcile];
  }

  lemma OnlyOneCarried(r: Run, p: Proposal, q: Proposal, id: Name)
    requires q in r.proposals && r.actions.Keys == {id} && r.actions[id].proposal == p.id && r.actions[id].expected.journal == p.journal
    requires p.id != q.id || p.journal != q.journal
    ensures !CarriedOut(r)
  {
    forall a | a in r.actions ensures !Carries(r.actions[a], q) {
      assert a in r.actions.Keys && a == id;
    }
  }

  /** Two journals under one id: with both prepared before the first read-back the run is
      approved, and the second journal is never sent. */
  lemma SharedIdLeavesAJournalUnsent(d: Deployment, snapshot: Name, batches: seq<SourceBatch>, x: Name, j1: JournalProposal, j2: JournalProposal,
                                     id: Name, other: Name, journal: Name)
    requires Buildable(d.mode, batches) && j1 != j2
    ensures var p, q, e := Proposal(x, j1), Proposal(x, j2), Expected(id, j1);
            var cs := UpToApproval(d, snapshot, batches, [p, q])
                      + [PrepareAction(p, id)] + [PrepareAction(q, other)]
                      + [ReconcileAction(id, Some(journal), Some(e), Some(e))];
            After(d, cs).state == Approved && PreparedFirst(d, cs) && !CarriedOut(After(d, cs))
  {
    hide Buildable, After, PackageOf, SnapshotOf, CarriedOut, AllPrepared;
    var p, q, e := Proposal(x, j1), Proposal(x, j2), Expected(id, j1);
    var start := UpToApproval(d, snapshot, batches, [p, q]);
    var reconcile := ReconcileAction(id, Some(journal), Some(e), Some(e));
    ReachesApplying(d, snapshot, batches, [p, q]);
    AfterStep(d, start, PrepareAction(p, id));
    AfterStep(d, start + [PrepareAction(p, id)], PrepareAction(q, other));
    var before := start + [PrepareAction(p, id)] + [PrepareAction(q, other)];
    AfterStep(d, before, reconcile);
    var prepared := After(d, start + [PrepareAction(p, id)]);
    assert prepared.actions[id].proposal == x && HasAction(prepared.actions, x);
    assert After(d, before) == prepared;
    PreparedByOne(prepared, p, q);
    var cs := before + [reconcile];
    forall n | 0 <= n < |cs| && cs[n].ReconcileAction? ensures AllPrepared(After(d, cs[..n])) {
      assert n == |before| && cs[..n] == before;
    }
    OnlyOneCarried(After(d, cs), p, q, id);
  }

  lemma PreparedByOne(r: Run, p: Proposal, q: Proposal)
    requires r.proposals == [p, q] && p.id == q.id && HasAction(r.actions, p.id)
    ensures AllPrepared(r)
  {
  }

  // ---- refused approvals ------------------------------------------------------------------------------------

  /** In a reachable run an approval that is not accepted changes nothing at all. */
  lemma RefusedApprovalChangesNothing(d: Deployment, cs: seq<Command>, actor: Name, package: Package)
    ensures var r := After(d, cs);
            var accepted := actor == d.controller && r.package == Some(package) && r.state == AwaitingApproval;
            Apply(d, r, Approve(actor, package)) == r <==> !accepted
  {
    hide After, SoundSnapshot, PackageOf, SoundAction, SameProposal;
    ReachableInv(d, cs);
  }

  // ---- a Plaid batch in a snapshot ----------------------------------------------------------------------------

  /** The source batch lists the transactions of a sync, each once in some order, then its tombstones. */
  ghost predicate Lists(b: SourceBatch, sync: PlaidSync.SourceBatch, order: seq<Name>) {
    && (forall id :: id in order <==> id in sync.records)
    && (forall i, j :: 0 <= i < j < |order| ==> order[i] != order[j])
    && |b.versions| == |order| + |sync.tombstones|
    && (forall i :: 0 <= i < |order| ==> b.versions[i].record == order[i])
    && (forall k :: 0 <= k < |sync.tombstones| ==> b.versions[|order| + k].record == sync.tombstones[k].id)
  }

  ghost predicate RecordsApart(b: SourceBatch) {
    forall i, j :: 0 <= i < j < |b.versions| ==> b.versions[i].record != b.versions[j].record
  }

  lemma ListedApart(b: SourceBatch, sync: PlaidSync.SourceBatch, order: seq<Name>)
    requires Lists(b, sync, order)
    ensures RecordsApart(b) <==> PlaidSyncTheorems.NamesOnce(sync)
  {
    var n := |order|;
    if RecordsApart(b) {
      forall k | 0 <= k < |sync.tombstones| ensures sync.tombstones[k].id !in sync.records {
        forall i | 0 <= i < n ensures order[i] != sync.tombstones[k].id {
          assert b.versions[i].record != b.versions[n + k].record;
        }
      }
      forall k, l | 0 <= k < l < |sync.tombstones| ensures sync.tombstones[k].id != sync.tombstones[l].id {
        assert b.versions[n + k].record != b.versions[n + l].record;
      }
    }
    if PlaidSyncTheorems.NamesOnce(sync) {
      forall i, j | 0 <= i < j < |b.versions| ensures b.versions[i].record != b.versions[j].record {
        if i >= n {
          assert b.versions[n + (i - n)].record == sync.tombstones[i - n].id;
        } else {
          assert order[i] in order;
        }
        if j >= n { assert b.versions[n + (j - n)].record == sync.tombstones[j - n].id; }
      }
    }
  }

  /** Records as the normaliser makes them: a version names its provider and record. */
  ghost predicate VersionsTell(rs: seq<SnapshotRecord>) {
    forall i, j :: 0 <= i < |rs| && 0 <= j < |rs| && rs[i].version == rs[j].version ==> SameSource(rs[i], rs[j])
  }

  ghost predicate OtherProviders(rs: seq<SnapshotRecord>, provider: Name) {
    forall i :: 0 <= i < |rs| ==> rs[i].provider != provider
  }

  ghost predicate OfProvider(b: SourceBatch) {
    forall i :: 0 <= i < |b.versions| ==> b.versions[i].provider == b.provider
  }

  lemma {:induction false} FlattenAppend(a: seq<SourceBatch>, b: seq<SourceBatch>)
    ensures Flatten(a + b) == Flatten(a) + Flatten(b)
  {
    hide RecordsOf;
    if b == [] {
      assert a + b == a;
      FlattenNone(b);
    } else {
      var rest, last := b[..|b| - 1], b[|b| - 1];
      FlattenAppend(a, rest);
      assert (a + b)[..|a + b| - 1] == a + rest;
    }
  }

  lemma FlattenOne(b: SourceBatch)
    ensures Flatten([b]) == RecordsOf(b, |b.versions|)
  {
    hide RecordsOf;
    FlattenNone([b][..0]);
    assert [b][..1] == [b];
  }

  ghost predicate SourcesApart(rs: seq<SnapshotRecord>) {
    forall i, j :: 0 <= i < j < |rs| ==> !SameSource(rs[i], rs[j])
  }

  lemma ApartBySource(rs: seq<SnapshotRecord>)
    requires VersionsTell(rs)
    ensures Apart(rs) <==> SourcesApart(rs)
  {
    if Apart(rs) {
      forall i, j | 0 <= i < j < |rs| ensures !SameSource(rs[i], rs[j]) { assert rs[i].version != rs[j].version; }
    }
    if SourcesApart(rs) {
      forall i, j | 0 <= i < j < |rs| ensures rs[i].version != rs[j].version && !SameSource(rs[i], rs[j]) {
        assert !SameSource(rs[i], rs[j]);
      }
    }
  }

  /** Records of one provider between records of others repeat a source only among themselves. */
  lemma SourcesBetween(a: seq<SnapshotRecord>, mine: seq<SnapshotRecord>, b: seq<SnapshotRecord>, provider: Name)
    requires OtherProviders(a + b, provider) && forall i :: 0 <= i < |mine| ==> mine[i].provider == provider
    ensures SourcesApart(a + mine + b) <==> SourcesApart(a + b) && SourcesApart(mine)
  {
    var all, others := a + mine + b, a + b;
    forall i | 0 <= i < |a| ensures a[i] == all[i] == others[i] {}
    forall i | 0 <= i < |mine| ensures mine[i] == all[|a| + i] {}
    forall i | 0 <= i < |b| ensures b[i] == all[|a| + |mine| + i] == others[|a| + i] {}
    if SourcesApart(all) {
      forall i, j | 0 <= i < j < |mine| ensures !SameSource(mine[i], mine[j]) {
        assert !SameSource(all[|a| + i], all[|a| + j]);
      }
      forall i, j | 0 <= i < j < |others| ensures !SameSource(others[i], others[j]) {
        var k, l := if i < |a| then i else i + |mine|, if j < |a| then j else j + |mine|;
        assert !SameSource(all[k], all[l]);
      }
    }
    if SourcesApart(others) && SourcesApart(mine) {
      forall i, j | 0 <= i < j < |all| ensures !SameSource(all[i], all[j]) {
        if |a| <= i < |a| + |mine| {
          if j < |a| + |mine| { assert !SameSource(mine[i - |a|], mine[j - |a|]); }
        } else if !(|a| <= j < |a| + |mine|) {
          var k, l := if i < |a| then i else i - |mine|, if j < |a| then j else j - |mine|;
          assert !SameSource(others[k], others[l]);
        }
      }
    }
  }

  lemma PlaidRecordsApart(b: SourceBatch)
    requires OfProvider(b)
    ensures SourcesApart(RecordsOf(b, |b.versions|)) <==> RecordsApart(b)
  {
    var rs := RecordsOf(b, |b.versions|);
    if SourcesApart(rs) {
      forall i, j | 0 <= i < j < |b.versions| ensures b.versions[i].record != b.versions[j].record {
        assert !SameSource(rs[i], rs[j]);
      }
    }
    if RecordsApart(b) {
      forall i, j | 0 <= i < j < |rs| ensures !SameSource(rs[i], rs[j]) {
        assert b.versions[i].record != b.versions[j].record;
      }
    }
  }

  /** Beside valid batches of other providers that name nothing twice, a Plaid sync's batch can be
      frozen exactly when it names every record once. */
  lemma PlaidBatchFreezesExactlyWhen(d: Deployment, before: seq<SourceBatch>, b: SourceBatch, after: seq<SourceBatch>,
                                     sync: PlaidSync.SourceBatch, order: seq<Name>)
    requires Lists(b, sync, order) && OfProvider(b) && ValidBatch(d.mode, b)
    requires forall o :: o in before + after ==> ValidBatch(d.mode, o)
    requires OtherProviders(Flatten(before) + Flatten(after), b.provider) && SourcesApart(Flatten(before) + Flatten(after))
    requires VersionsTell(Flatten(before + [b] + after))
    ensures Buildable(d.mode, before + [b] + after) <==> PlaidSyncTheorems.NamesOnce(sync)
  {
    hide Lists, SourcesApart, VersionsTell, OtherProviders, OfProvider, Apart, RecordsApart, ValidBatch, Flatten;
    var all := before + [b] + after;
    FlattenAppend(before, [b]);
    FlattenAppend(before + [b], after);
    FlattenOne(b);
    var mine := RecordsOf(b, |b.versions|);
    assert Flatten(all) == Flatten(before) + mine + Flatten(after);
    ApartBySource(Flatten(all));
    ProviderOfRecords(b);
    SourcesBetween(Flatten(before), mine, Flatten(after), b.provider);
    PlaidRecordsApart(b);
    ListedApart(b, sync, order);
    forall i | 0 <= i < |all| ensures ValidBatch(d.mode, all[i]) {
      assert all[i] == b || all[i] in before + after;
    }
  }

  lemma ProviderOfRecords(b: SourceBatch)
    requires OfProvider(b)
    ensures forall i :: 0 <= i < |b.versions| ==> RecordsOf(b, |b.versions|)[i].provider == b.provider
  {
  }

  /** So a synchronisation that read every source either freezes them or leaves the run blocked,
      and the repeated record alone decides which. */
  lemma ReaddedRecordBlocksTheRun(d: Deployment, r: Run, id: Name, xero: SourceBatch, b: SourceBatch, sync: PlaidSync.SourceBatch, order: seq<Name>)
    requires r.state == Created || r.state == Synchronizing
    requires Lists(b, sync, order) && OfProvider(b) && ValidBatch(d.mode, b)
    requires ValidBatch(d.mode, xero) && OfProvider(xero) && xero.provider != b.provider && RecordsApart(xero)
    requires VersionsTell(Flatten([xero, b]))
    ensures var q := Apply(d, r, Synchronize(id, Some([xero, b])));
            q == if PlaidSyncTheorems.NamesOnce(sync)
                 then r.(state := Running, snapshot := Some(SnapshotOf(d, id, [xero, b])))
                 else r.(state := Blocked)
    ensures !PlaidSyncTheorems.NamesOnce(sync) ==>
              Apply(d, Apply(d, r, Synchronize(id, Some([xero, b]))), BeginSync) == r.(state := Synchronizing)
  {
    hide Lists, OfProvider, ValidBatch, RecordsApart, VersionsTell, Flatten, Buildable, SnapshotOf, SourcesApart, OtherProviders;
    assert [xero] + [b] + [] == [xero, b];
    FlattenOne(xero);
    FlattenNone([]);
    var mine := RecordsOf(xero, |xero.versions|);
    assert mine + Flatten([]) == mine;
    PlaidRecordsApart(xero);
    OthersThan(xero, b.provider);
    assert forall o :: o in [xero] + [] ==> o == xero;
    PlaidBatchFreezesExactlyWhen(d, [xero], b, [], sync, order);
  }

  lemma OthersThan(b: SourceBatch, provider: Name)
    requires OfProvider(b) && b.provider != provider
    ensures OtherProviders(RecordsOf(b, |b.versions|), provider)
  {
  }

}
