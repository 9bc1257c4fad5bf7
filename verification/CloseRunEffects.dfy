/** What each command of a close run does: which moves between states there are and when, and what a
    frozen snapshot and a package hold. */
module CloseRunEffects {
  import opened Names
  import opened CloseRuns
  import CloseRunTheorems

  // ---- what can be frozen, and as what ----------------------------------------------------------------

  predicate Usable(mode: Mode, b: SourceBatch) {
    && b.environment in (if mode == ProductionMode then {ProductionSource} else {DemoSource, SandboxSource})
    && b.complete && !b.warnings
  }

  /** The same version, or the same record of the same provider. */
  predicate Clash(a: RecordVersion, b: RecordVersion) {
    a.version == b.version || (a.provider == b.provider && a.record == b.record)
  }

  ghost predicate At(batches: seq<SourceBatch>, i: int, k: int) {
    0 <= i < |batches| && 0 <= k < |batches[i].versions|
  }

  ghost predicate NothingTwice(batches: seq<SourceBatch>) {
    forall i, k, j, l :: At(batches, i, k) && At(batches, j, l) && (i != j || k != l) ==>
      !Clash(batches[i].versions[k], batches[j].versions[l])
  }

  /** How many records the first `n` batches have. */
  ghost function Offset(batches: seq<SourceBatch>, n: nat): nat
    requires n <= |batches|
  {
    if n == 0 then 0 else Offset(batches, n - 1) + |batches[n - 1].versions|
  }

  predicate RecordOf(b: SourceBatch, k: nat, r: SnapshotRecord)
    requires k < |b.versions|
  {
    var v := b.versions[k];
    r == SnapshotRecord(v.version, b.id, v.provider, v.record, v.contentHash)
  }

  lemma {:induction false} SameOffset(a: seq<SourceBatch>, b: seq<SourceBatch>, n: nat)
    requires n <= |a| && n <= |b| && a[..n] == b[..n]
    ensures Offset(a, n) == Offset(b, n)
  {
    if n > 0 {
      assert a[..n][..n - 1] == b[..n][..n - 1] && a[..n][n - 1] == b[..n][n - 1];
      SameOffset(a, b, n - 1);
    }
  }

  ghost predicate HoldsRecord(rs: seq<SnapshotRecord>, batches: seq<SourceBatch>, i: int, k: int)
    requires At(batches, i, k)
  {
    Offset(batches, i) + k < |rs| && RecordOf(batches[i], k, rs[Offset(batches, i) + k])
  }

  /** The records of all batches in order, each under its batch. */
  lemma {:induction false} FlattenAt(batches: seq<SourceBatch>)
    ensures |Flatten(batches)| == Offset(batches, |batches|)
    ensures forall i, k :: At(batches, i, k) ==> HoldsRecord(Flatten(batches), batches, i, k)
  {
    if batches != [] {
      var n := |batches| - 1;
      var rest := batches[..n];
      FlattenAt(rest);
      SameOffset(rest, batches, n);
      forall i, k | At(batches, i, k) ensures HoldsRecord(Flatten(batches), batches, i, k) {
        if i < n {
          assert rest[..i] == batches[..i];
          SameOffset(rest, batches, i);
          assert At(rest, i, k) && HoldsRecord(Flatten(rest), rest, i, k);
        }
      }
    }
  }

  /** Every position of the flattened records belongs to one version of one batch. */
  lemma {:induction false} PositionOf(batches: seq<SourceBatch>, p: nat) returns (i: nat, k: nat)
    requires p < Offset(batches, |batches|)
    ensures At(batches, i, k) && p == Offset(batches, i) + k
  {
    var n := |batches| - 1;
    SameOffset(batches[..n], batches, n);
    if p < Offset(batches, n) {
      i, k := PositionOf(batches[..n], p);
      assert batches[..n][..i] == batches[..i];
      SameOffset(batches[..n], batches, i);
    } else {
      i, k := n, p - Offset(batches, n);
    }
  }

  lemma {:induction false} OffsetGrows(batches: seq<SourceBatch>, i: nat, j: nat)
    requires i < j <= |batches|
    ensures Offset(batches, i) + |batches[i].versions| <= Offset(batches, j)
  {
    if i < j - 1 { OffsetGrows(batches, i, j - 1); }
  }

  lemma ApartMeaning(batches: seq<SourceBatch>)
    ensures Apart(Flatten(batches)) <==> NothingTwice(batches)
  {
    hide Flatten, Clash, Offset;
    var rs := Flatten(batches);
    FlattenAt(batches);
    if Apart(rs) {
      forall i, k, j, l | At(batches, i, k) && At(batches, j, l) && (i != j || k != l)
        ensures !Clash(batches[i].versions[k], batches[j].versions[l])
      {
        assert HoldsRecord(rs, batches, i, k) && HoldsRecord(rs, batches, j, l);
        ApartPositions(batches, i, k, j, l);
        ClashMeaning(rs[Offset(batches, i) + k], rs[Offset(batches, j) + l], batches[i].versions[k], batches[j].versions[l]);
      }
    }
    if NothingTwice(batches) {
      forall p, q | 0 <= p < q < |rs| ensures rs[p].version != rs[q].version && !SameSource(rs[p], rs[q]) {
        var i, k := PositionOf(batches, p);
        var j, l := PositionOf(batches, q);
        assert HoldsRecord(rs, batches, i, k) && HoldsRecord(rs, batches, j, l);
        ClashMeaning(rs[p], rs[q], batches[i].versions[k], batches[j].versions[l]);
      }
    }
  }

  lemma ApartPositions(batches: seq<SourceBatch>, i: nat, k: nat, j: nat, l: nat)
    requires At(batches, i, k) && At(batches, j, l) && (i != j || k != l)
    ensures Offset(batches, i) + k != Offset(batches, j) + l
  {
    hide Offset;
    if i < j { OffsetGrows(batches, i, j); }
    if j < i { OffsetGrows(batches, j, i); }
  }

  lemma ClashMeaning(r: SnapshotRecord, s: SnapshotRecord, v: RecordVersion, w: RecordVersion)
    requires r.version == v.version && r.provider == v.provider && r.record == v.record
    requires s.version == w.version && s.provider == w.provider && s.record == w.record
    ensures r.version != s.version && !SameSource(r, s) <==> !Clash(v, w)
    ensures s.version != r.version && !SameSource(s, r) <==> !Clash(v, w)
  {
  }

  ghost predicate Freezable(mode: Mode, batches: seq<SourceBatch>) {
    batches != [] && (forall i :: 0 <= i < |batches| ==> Usable(mode, batches[i])) && NothingTwice(batches)
  }

  /** Batches can be frozen exactly when there are some, each is complete, without warnings and of an
      environment the mode allows, and no version and no provider record comes twice. */
  lemma BuildableExactlyWhen(mode: Mode, batches: seq<SourceBatch>)
    ensures Buildable(mode, batches) <==> Freezable(mode, batches)
  {
    hide Flatten, Apart, NothingTwice;
    ApartMeaning(batches);
  }

  /** The snapshot of these batches: their ids in order, and every record of each under its batch. */
  ghost predicate Freezes(d: Deployment, id: Name, batches: seq<SourceBatch>, s: Snapshot) {
    && s.id == id && s.deployment == d.id && s.mode == d.mode
    && |s.batches| == |batches| && (forall i :: 0 <= i < |batches| ==> s.batches[i] == batches[i].id)
    && |s.records| == Offset(batches, |batches|)
    && forall i, k :: At(batches, i, k) ==> HoldsRecord(s.records, batches, i, k)
  }

  lemma SnapshotFreezes(d: Deployment, id: Name, batches: seq<SourceBatch>)
    ensures Freezes(d, id, batches, SnapshotOf(d, id, batches))
  {
    hide Flatten, Offset, HoldsRecord;
    FlattenAt(batches);
  }

  // ---- the moves between states ------------------------------------------------------------------------

  /** The provider's answer shows the journal the action expects. */
  predicate RightAnswer(r: Run, c: Command) {
    && c.ReconcileAction? && c.action in r.actions && c.journalId.Some?
    && c.narration == Some(r.actions[c.action].expected) && c.request == Some(r.actions[c.action].expected)
  }

  predicate OthersSucceeded(r: Run, action: Name) {
    forall a :: a in r.actions && a != action ==> r.actions[a].status == Succeeded
  }

  /** The batches that a command freezes, if it can. */
  ghost function BatchesFor(r: Run, c: Command): Option<seq<SourceBatch>> {
    match c
    case BuildSnapshot(_, batches) => if r.state == Synchronizing then Some(batches) else None
    case Synchronize(_, read) => if r.state == Created || r.state == Synchronizing then read else None
    case _ => None
  }

  ghost predicate Signs(d: Deployment, r: Run, c: Command) {
    c.Approve? && c.actor == d.controller && r.package == Some(c.package)
  }

  /** When a command takes a run into a state it was not in. */
  ghost predicate Enters(d: Deployment, r: Run, c: Command, s: RunState) {
    match s
    case Created => false
    case Synchronizing => c.BeginSync? && (r.state == Created || r.state == Blocked)
    case Running => BatchesFor(r, c).Some? && Freezable(d.mode, BatchesFor(r, c).value)
    case Blocked =>
      && c.Synchronize? && (r.state == Created || r.state == Synchronizing)
      && !(c.read.Some? && Freezable(d.mode, c.read.value))
    case AwaitingApproval => c.PrepareForReview? && r.state == Running && r.snapshot.Some?
    case Applying => Signs(d, r, c) && r.state == AwaitingApproval && r.proposals != []
    case ActionFailed => c.ReconcileAction? && c.action in r.actions && !RightAnswer(r, c)
    case Approved =>
      || (Signs(d, r, c) && r.state == AwaitingApproval && r.proposals == [])
      || (RightAnswer(r, c) && OthersSucceeded(r, c.action))
  }

  /** A run moves to another state exactly as told. */
  lemma StateMovesExactly(d: Deployment, r: Run, c: Command, s: RunState)
    requires r.state != s
    ensures Apply(d, r, c).state == s <==> Enters(d, r, c, s)
  {
    hide Buildable, Freezable, SnapshotOf, PackageOf, HasAction;
    if c.BuildSnapshot? { BuildableExactlyWhen(d.mode, c.batches); }
    if c.Synchronize? && c.read.Some? { BuildableExactlyWhen(d.mode, c.read.value); }
    if c.ReconcileAction? && c.action in r.actions { SucceededMeaning(r, c); }
  }

  lemma SucceededMeaning(r: Run, c: Command)
    requires c.ReconcileAction? && c.action in r.actions
    ensures RightAnswer(r, c) ==>
              (AllSucceeded(r.actions[c.action := r.actions[c.action].(journalId := c.journalId, status := Succeeded)])
               <==> OthersSucceeded(r, c.action))
  {
    var actions := r.actions[c.action := r.actions[c.action].(journalId := c.journalId, status := Succeeded)];
    if AllSucceeded(actions) {
      forall a | a in r.actions && a != c.action ensures r.actions[a].status == Succeeded { assert actions[a] == r.actions[a]; }
    }
  }

  // ---- what else a command changes ------------------------------------------------------------------------

  ghost predicate Named(r: Run, proposal: Name) {
    exists a :: a in r.actions && r.actions[a].proposal == proposal
  }

  /** The snapshot changes exactly by freezing, the package and proposals by preparing, the approver by a
      signature on the run's own package, and one action by preparing or reconciling it. */
  ghost predicate Changes(d: Deployment, r: Run, q: Run, c: Command) {
    && (if BatchesFor(r, c).Some? && Freezable(d.mode, BatchesFor(r, c).value)
        then q.snapshot.Some? && Freezes(d, c.id, BatchesFor(r, c).value, q.snapshot.value)
        else q.snapshot == r.snapshot)
    && (if c.PrepareForReview? && r.state == Running && r.snapshot.Some?
        then q.proposals == c.proposals && q.package.Some? && q.package.value.snapshot == r.snapshot.value.id
             && |q.package.value.journals| == |c.proposals|
             && forall i :: 0 <= i < |c.proposals| ==> q.package.value.journals[i] == c.proposals[i].journal
        else q.proposals == r.proposals && q.package == r.package)
    && q.approver == (if Signs(d, r, c) then Some(d.controller) else r.approver)
    && q.actions == (if c.PrepareAction? && r.state in {Applying, ActionFailed} && c.proposal in r.proposals
                        && !Named(r, c.proposal.id) && c.action !in r.actions
                     then r.actions[c.action := Action(c.proposal.id, Expected(c.action, c.proposal.journal), Prepared, None)]
                     else if c.ReconcileAction? && c.action in r.actions
                     then var a := r.actions[c.action];
                          r.actions[c.action := Action(a.proposal, a.expected,
                                                       if RightAnswer(r, c) then Succeeded
                                                       else if c.journalId.None? then OutcomeUnknown else FailedAction,
                                                       if RightAnswer(r, c) then c.journalId else a.journalId)]
                     else r.actions)
  }

  lemma CommandChanges(d: Deployment, r: Run, c: Command)
    ensures Changes(d, r, Apply(d, r, c), c)
  {
    hide Buildable, Freezable, SnapshotOf, Freezes, AllSucceeded;
    match c {
      case BuildSnapshot(id, batches) => BuildableExactlyWhen(d.mode, batches); SnapshotFreezes(d, id, batches);
      case Synchronize(id, read) =>
        if read.Some? { BuildableExactlyWhen(d.mode, read.value); SnapshotFreezes(d, id, read.value); }
      case PrepareAction(p, _) => assert HasAction(r.actions, p.id) <==> Named(r, p.id);
      case _ =>
    }
  }

  /** A run has left its first state exactly if some command began a synchronisation. */
  lemma {:induction false} LeftCreatedExactlyWhen(d: Deployment, cs: seq<Command>)
    ensures CloseRunTheorems.After(d, cs).state != Created <==> exists c :: c in cs && (c.BeginSync? || c.Synchronize?)
  {
    if cs != [] {
      hide Apply;
      var rest, last := cs[..|cs| - 1], cs[|cs| - 1];
      LeftCreatedExactlyWhen(d, rest);
      assert forall c :: c in cs <==> c in rest || c == last;
      NothingActsYet(d, rest);
    }
  }

  lemma NothingActsYet(d: Deployment, cs: seq<Command>)
    ensures var r := CloseRunTheorems.After(d, cs); r.state == Created ==> r.actions == map[]
  {
    hide CloseRunTheorems.After, CloseRunTheorems.SoundSnapshot, CloseRunTheorems.SoundAction, CloseRunTheorems.SameProposal;
    CloseRunTheorems.ReachableInv(d, cs);
  }

}
