/** A close run from its first sync to its approval: the snapshot it freezes, the package the
    controller approves, and the actions that carry the package out. */
module CloseRuns {
  import opened Names
  import opened Journals

  datatype Environment = DemoSource | SandboxSource | ProductionSource | OtherSource

  datatype Mode = DemoMode | ProductionMode

  datatype Deployment = Deployment(id: Name, mode: Mode, controller: Name)

  datatype RecordVersion = RecordVersion(version: Name, provider: Name, record: Name, contentHash: Name)

  datatype SourceBatch = SourceBatch(id: Name, provider: Name, environment: Environment, complete: bool, warnings: bool,
                                     versions: seq<RecordVersion>)

  datatype SnapshotRecord = SnapshotRecord(version: Name, batch: Name, provider: Name, record: Name, contentHash: Name)

  datatype Snapshot = Snapshot(id: Name, deployment: Name, mode: Mode, records: seq<SnapshotRecord>, batches: seq<Name>)

  /** A proposal under the identity its action is looked up by. */
  datatype Proposal = Proposal(id: Name, journal: JournalProposal)

  /** What a package hash covers; hashes are taken to be injective, so it stands for its hash. */
  datatype Package = Package(snapshot: Name, journals: seq<JournalProposal>)

  datatype ActionStatus = Prepared | Succeeded | FailedAction | OutcomeUnknown

  /** The marker, narration and request hash of an action, which all follow from these two. */
  datatype Expected = Expected(action: Name, journal: JournalProposal)

  datatype Action = Action(proposal: Name, expected: Expected, status: ActionStatus, journalId: Option<Name>)

  datatype RunState = Created | Synchronizing | Running | Blocked | AwaitingApproval | Applying | ActionFailed | Approved

  datatype Run = Run(state: RunState, snapshot: Option<Snapshot>, package: Option<Package>, proposals: seq<Proposal>,
                     approver: Option<Name>, actions: map<Name, Action>)

  datatype Command =
    | BeginSync
    | BuildSnapshot(id: Name, batches: seq<SourceBatch>)
    | Synchronize(id: Name, read: Option<seq<SourceBatch>>)
    | PrepareForReview(proposals: seq<Proposal>)
    | Approve(actor: Name, package: Package)
    | PrepareAction(proposal: Proposal, action: Name)
    | ReconcileAction(action: Name, journalId: Option<Name>, narration: Option<Expected>, request: Option<Expected>)

  // ---- freezing a snapshot ---------------------------------------------------------------------------

  predicate RightEnvironment(mode: Mode, environment: Environment) {
    match mode
    case DemoMode => environment == DemoSource || environment == SandboxSource
    case ProductionMode => environment == ProductionSource
  }

  predicate ValidBatch(mode: Mode, b: SourceBatch) {
    RightEnvironment(mode, b.environment) && b.complete && !b.warnings
  }

  function RecordsOf(b: SourceBatch, n: nat): (r: seq<SnapshotRecord>)
    requires n <= |b.versions|
    ensures |r| == n
  {
    seq(n, i requires 0 <= i < n =>
      SnapshotRecord(b.versions[i].version, b.id, b.versions[i].provider, b.versions[i].record, b.versions[i].contentHash))
  }

  function Flatten(batches: seq<SourceBatch>): seq<SnapshotRecord> {
    if batches == [] then []
    else Flatten(batches[..|batches| - 1]) + RecordsOf(batches[|batches| - 1], |batches[|batches| - 1].versions|)
  }

  predicate SameSource(a: SnapshotRecord, b: SnapshotRecord) {
    a.provider == b.provider && a.record == b.record
  }

  /** No version twice and no provider record twice. */
  ghost predicate Apart(rs: seq<SnapshotRecord>) {
    forall i, j :: 0 <= i < j < |rs| ==> rs[i].version != rs[j].version && !SameSource(rs[i], rs[j])
  }

  ghost predicate Buildable(mode: Mode, batches: seq<SourceBatch>) {
    && batches != []
    && (forall i :: 0 <= i < |batches| ==> ValidBatch(mode, batches[i]))
    && Apart(Flatten(batches))
  }

  function BatchIds(batches: seq<SourceBatch>): (r: seq<Name>)
    ensures |r| == |batches|
  {
    seq(|batches|, i requires 0 <= i < |batches| => batches[i].id)
  }

  function SnapshotOf(d: Deployment, id: Name, batches: seq<SourceBatch>): Snapshot {
    Snapshot(id, d.id, d.mode, Flatten(batches), BatchIds(batches))
  }

  // ---- one command --------------------------------------------------------------------------------------

  function JournalsOf(ps: seq<Proposal>): (r: seq<JournalProposal>)
    ensures |r| == |ps|
  {
    seq(|ps|, i requires 0 <= i < |ps| => ps[i].journal)
  }

  function PackageOf(snapshot: Snapshot, ps: seq<Proposal>): Package { Package(snapshot.id, JournalsOf(ps)) }

  predicate AllSucceeded(actions: map<Name, Action>) {
    forall a :: a in actions ==> actions[a].status == Succeeded
  }

  /** Some action already stands for the proposal id. */
  predicate HasAction(actions: map<Name, Action>, proposal: Name) {
    exists a :: a in actions && actions[a].proposal == proposal
  }

  ghost function Built(d: Deployment, r: Run, id: Name, batches: seq<SourceBatch>): Option<Run> {
    if r.state == Synchronizing && Buildable(d.mode, batches)
    then Some(r.(snapshot := Some(SnapshotOf(d, id, batches)), state := Running))
    else None
  }

  function Reconciled(r: Run, action: Name, journalId: Option<Name>, narration: Option<Expected>, request: Option<Expected>): Run
    requires action in r.actions
  {
    var a := r.actions[action];
    if journalId.None? then r.(actions := r.actions[action := a.(status := OutcomeUnknown)], state := ActionFailed)
    else if narration != Some(a.expected) || request != Some(a.expected)
    then r.(actions := r.actions[action := a.(status := FailedAction)], state := ActionFailed)
    else
      var actions := r.actions[action := a.(journalId := journalId, status := Succeeded)];
      r.(actions := actions, state := if AllSucceeded(actions) then Approved else r.state)
  }

  /** The run after a command, accepted or refused. */
  ghost function Apply(d: Deployment, r: Run, c: Command): Run {
    match c
    case BeginSync => if r.state == Created || r.state == Blocked then r.(state := Synchronizing) else r
    case BuildSnapshot(id, batches) =>
      var built := Built(d, r, id, batches);
      if built.Some? then built.value else r
    case Synchronize(id, read) =>
      var started := if r.state == Created then r.(state := Synchronizing) else r;
      if started.state != Synchronizing then started
      else if read.Some? && Built(d, started, id, read.value).Some? then Built(d, started, id, read.value).value
      else started.(state := Blocked)
    case PrepareForReview(ps) =>
      if r.state == Running && r.snapshot.Some?
      then r.(package := Some(PackageOf(r.snapshot.value, ps)), proposals := ps, state := AwaitingApproval)
      else r
    case Approve(actor, package) =>
      if actor != d.controller || Some(package) != r.package then r
      else
        var signed := r.(approver := Some(actor));
        if r.state != AwaitingApproval then signed else signed.(state := if r.proposals == [] then Approved else Applying)
    case PrepareAction(p, action) =>
      if (r.state != Applying && r.state != ActionFailed) || p !in r.proposals || HasAction(r.actions, p.id) || action in r.actions then r
      else r.(actions := r.actions[action := Action(p.id, Expected(action, p.journal), Prepared, None)])
    case ReconcileAction(action, journalId, narration, request) =>
      if action !in r.actions then r else Reconciled(r, action, journalId, narration, request)
  }

  function NewRun(): Run { Run(Created, None, None, [], None, map[]) }

  // ---- the service -----------------------------------------------------------------------------------------

  class CloseRun {
    const deployment: Deployment
    var state: RunState
    var snapshot: Option<Snapshot>
    var package: Option<Package>
    var proposals: seq<Proposal>
    var approver: Option<Name>
    var actions: map<Name, Action>

    ghost function View(): Run
      reads this
    {
      Run(state, snapshot, package, proposals, approver, actions)
    }

    constructor (deployment: Deployment)
      ensures this.deployment == deployment && View() == NewRun()
    {
      this.deployment := deployment;
      state, snapshot, package, proposals, approver, actions := Created, None, None, [], None, map[];
    }

    method Begin() returns (ok: bool)
      modifies this
      ensures View() == Apply(deployment, old(View()), BeginSync)
      ensures ok <==> old(state) == Created || old(state) == Blocked
    {
      ok := state == Created || state == Blocked;
      if ok { state := Synchronizing; }
    }

    /** Check every batch and record, then freeze them all. */
    method Build(id: Name, batches: seq<SourceBatch>) returns (ok: bool)
      modifies this
      ensures ok <==> Built(deployment, old(View()), id, batches).Some?
      ensures View() == Apply(deployment, old(View()), BuildSnapshot(id, batches))
    {
      hide Flatten;
      if state != Synchronizing || batches == [] {
        return false;
      }
      var records: seq<SnapshotRecord> := [];
      FlattenNone(batches[..0]);
      for n := 0 to |batches|
        invariant records == Flatten(batches[..n]) && Apart(records)
        invariant forall i :: 0 <= i < n ==> ValidBatch(deployment.mode, batches[i])
        invariant View() == old(View())
      {
        FlattenSnoc(batches, n);
        if !ValidBatch(deployment.mode, batches[n]) {
          return false;
        }
        var more := AddRecords(records, batches[n]);
        if more.None? {
          FlattenPrefix(batches, n + 1);
          return false;
        }
        records := more.value;
      }
      assert batches[..|batches|] == batches;
      snapshot := Some(Snapshot(id, deployment.id, deployment.mode, records, BatchIds(batches)));
      state := Running;
      return true;
    }

    /** The inner loop: append a batch's records, refusing any that was seen. */
    static method AddRecords(before: seq<SnapshotRecord>, b: SourceBatch) returns (r: Option<seq<SnapshotRecord>>)
      requires Apart(before)
      ensures var all := before + RecordsOf(b, |b.versions|);
              r == if Apart(all) then Some(all) else None
    {
      hide Apart;
      var records := before;
      var seenVersions, seenSources := set r | r in before :: r.version, set r | r in before :: (r.provider, r.record);
      for n := 0 to |b.versions|
        invariant records == before + RecordsOf(b, n) && Apart(records)
        invariant Seen(records, seenVersions, seenSources)
      {
        var v := b.versions[n];
        var record := SnapshotRecord(v.version, b.id, v.provider, v.record, v.contentHash);
        assert before + RecordsOf(b, n + 1) == records + [record];
        SeenSnoc(records, record, seenVersions, seenSources);
        if v.version in seenVersions || (v.provider, v.record) in seenSources {
          assert (before + RecordsOf(b, |b.versions|))[..|before| + n + 1] == records + [record];
          ApartPrefix(before + RecordsOf(b, |b.versions|), |before| + n + 1);
          return None;
        }
        seenVersions := seenVersions + {v.version};
        seenSources := seenSources + {(v.provider, v.record)};
        records := records + [record];
      }
      r := Some(records);
    }

    /** Read every source and freeze them, or leave the run blocked for another try. */
    method SynchronizeSources(id: Name, read: Option<seq<SourceBatch>>) returns (ok: bool)
      modifies this
      ensures View() == Apply(deployment, old(View()), Synchronize(id, read))
      ensures ok <==> state == Running && old(state) != Running
    {
      hide Buildable;
      if state == Created {
        var begun := Begin();
      }
      if state != Synchronizing {
        return false;
      }
      ok := false;
      if read.Some? {
        ok := Build(id, read.value);
      }
      if !ok { state := Blocked; }
    }

    method Prepare(ps: seq<Proposal>) returns (package: Option<Package>)
      modifies this
      ensures View() == Apply(deployment, old(View()), PrepareForReview(ps))
      ensures package.Some? ==> package == this.package
    {
      if state != Running || snapshot.None? {
        return None;
      }
      this.package := Some(Package(snapshot.value.id, JournalsOf(ps)));
      proposals := ps;
      state := AwaitingApproval;
      return this.package;
    }

    method ApprovePackage(actor: Name, package: Package) returns (ok: bool)
      modifies this
      ensures View() == Apply(deployment, old(View()), Approve(actor, package))
      ensures ok <==> actor == deployment.controller && Some(package) == old(this.package) && old(state) == AwaitingApproval
    {
      if actor != deployment.controller || this.package != Some(package) {
        return false;
      }
      approver := Some(actor);
      if state != AwaitingApproval {
        return false;
      }
      state := if proposals == [] then Approved else Applying;
      return true;
    }

    /** Return the action that stands for the proposal, making it under the fresh id if there is none. */
    method PrepareXeroAction(p: Proposal, id: Name) returns (action: Option<Name>)
      requires id !in actions
      modifies this
      ensures View() == Apply(deployment, old(View()), PrepareAction(p, id))
      ensures action.Some? <==> (old(state) == Applying || old(state) == ActionFailed) && p in proposals
      ensures action.Some? ==> action.value in actions && actions[action.value].proposal == p.id
    {
      if (state != Applying && state != ActionFailed) || p !in proposals {
        return None;
      }
      if a :| a in actions && actions[a].proposal == p.id {
        return Some(a);
      }
      actions := actions[id := Action(p.id, Expected(id, p.journal), Prepared, None)];
      return Some(id);
    }

    method ReconcileXeroAction(action: Name, journalId: Option<Name>, narration: Option<Expected>, request: Option<Expected>)
      returns (known: bool)
      modifies this
      ensures known <==> action in old(actions)
      ensures View() == Apply(deployment, old(View()), ReconcileAction(action, journalId, narration, request))
    {
      if action !in actions {
        return false;
      }
      var a := actions[action];
      if journalId.None? {
        actions := actions[action := a.(status := OutcomeUnknown)];
        state := ActionFailed;
        return true;
      }
      if narration != Some(a.expected) || request != Some(a.expected) {
        actions := actions[action := a.(status := FailedAction)];
        state := ActionFailed;
        return true;
      }
      actions := actions[action := a.(journalId := journalId, status := Succeeded)];
      if forall b :: b in actions ==> actions[b].status == Succeeded {
        state := Approved;
      }
      return true;
    }
  }

  lemma FlattenNone(batches: seq<SourceBatch>)
    requires batches == []
    ensures Flatten(batches) == []
  {
  }

  lemma FlattenSnoc(batches: seq<SourceBatch>, n: nat)
    requires n < |batches|
    ensures Flatten(batches[..n + 1]) == Flatten(batches[..n]) + RecordsOf(batches[n], |batches[n].versions|)
  {
    assert batches[..n + 1][..n] == batches[..n];
  }

  /** The sets hold exactly the versions and sources of the records so far. */
  ghost predicate Seen(rs: seq<SnapshotRecord>, versions: set<Name>, sources: set<(Name, Name)>) {
    && versions == (set r | r in rs :: r.version)
    && sources == (set r | r in rs :: (r.provider, r.record))
  }

  lemma SeenSnoc(rs: seq<SnapshotRecord>, r: SnapshotRecord, versions: set<Name>, sources: set<(Name, Name)>)
    requires Apart(rs) && Seen(rs, versions, sources)
    ensures Apart(rs + [r]) <==> r.version !in versions && (r.provider, r.record) !in sources
    ensures Seen(rs + [r], versions + {r.version}, sources + {(r.provider, r.record)})
  {
    hide Apart;
    ApartSnoc(rs, r);
    assert forall o :: o in rs + [r] <==> o in rs || o == r;
  }

  lemma ApartSnoc(rs: seq<SnapshotRecord>, r: SnapshotRecord)
    requires Apart(rs)
    ensures Apart(rs + [r]) <==> forall o :: o in rs ==> o.version != r.version && !SameSource(o, r)
  {
    var all := rs + [r];
    if Apart(all) {
      forall o | o in rs ensures o.version != r.version && !SameSource(o, r) {
        var i :| 0 <= i < |rs| && rs[i] == o;
        assert all[i].version != all[|rs|].version && !SameSource(all[i], all[|rs|]);
      }
    }
  }

  lemma ApartPrefix(rs: seq<SnapshotRecord>, n: nat)
    requires n <= |rs| && !Apart(rs[..n])
    ensures !Apart(rs)
  {
    var i, j :| 0 <= i < j < n && !(rs[..n][i].version != rs[..n][j].version && !SameSource(rs[..n][i], rs[..n][j]));
    assert !(rs[i].version != rs[j].version && !SameSource(rs[i], rs[j]));
  }

  lemma {:induction false} FlattenPrefix(batches: seq<SourceBatch>, n: nat)
    requires n <= |batches| && !Apart(Flatten(batches[..n]))
    ensures !Apart(Flatten(batches))
  {
    if n == |batches| {
      assert batches[..n] == batches;
    } else {
      var rest := batches[..|batches| - 1];
      assert rest[..n] == batches[..n];
      FlattenPrefix(rest, n);
      assert Flatten(batches)[..|Flatten(rest)|] == Flatten(rest);
      ApartPrefix(Flatten(batches), |Flatten(rest)|);
    }
  }
}
