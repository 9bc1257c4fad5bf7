/** How every execution of a proposal ends, told by what the provider holds, what its answers show and
    how far the worker lives. */
module DraftOutcomes {
  import opened Names
  import opened DraftActions
  import opened DraftActionsTheorems

  // ---- what a search can show -----------------------------------------------------------------------

  predicate MarkedAt(journals: seq<Journal>, key: Key, i: nat) {
    i < |journals| && journals[i].marker == Some(key)
  }

  ghost predicate Absent(journals: seq<Journal>, key: Key) {
    forall i: nat :: !MarkedAt(journals, key, i)
  }

  ghost predicate OnlyAt(journals: seq<Journal>, key: Key, i: nat) {
    MarkedAt(journals, key, i) && forall j: nat :: MarkedAt(journals, key, j) ==> j == i
  }

  ghost predicate Several(journals: seq<Journal>, key: Key) {
    exists i: nat, j: nat :: i != j && MarkedAt(journals, key, i) && MarkedAt(journals, key, j)
  }

  ghost predicate Shows(journals: seq<Journal>, key: Key, j: Journal) {
    exists i: nat :: OnlyAt(journals, key, i) && journals[i] == j
  }

  /** Where the journals that a search finds stand. */
  lemma {:induction false} Positions(journals: seq<Journal>, key: Key) returns (at: seq<nat>)
    ensures |at| == |Found(journals, key)|
    ensures forall k :: 0 <= k < |at| ==> MarkedAt(journals, key, at[k]) && journals[at[k]] == Found(journals, key)[k]
    ensures forall a, b :: 0 <= a < b < |at| ==> at[a] < at[b]
    ensures forall i: nat :: MarkedAt(journals, key, i) ==> i in at
  {
    if journals == [] {
      at := [];
    } else {
      var n := |journals| - 1;
      var rest := Positions(journals[..n], key);
      at := rest + if journals[n].marker == Some(key) then [n] else [];
      forall i: nat | MarkedAt(journals, key, i) ensures i in at {
        if i < n { assert MarkedAt(journals[..n], key, i); }
      }
    }
  }

  /** A search finds nothing, one or several journals as none, one or several carry the marker. */
  lemma FoundMeaning(journals: seq<Journal>, key: Key)
    ensures Found(journals, key) == [] <==> Absent(journals, key)
    ensures |Found(journals, key)| > 1 <==> Several(journals, key)
    ensures forall j :: Found(journals, key) == [j] <==> Shows(journals, key, j)
  {
    hide Found;
    var at := Positions(journals, key);
    var found := Found(journals, key);
    if |found| == 1 {
      assert OnlyAt(journals, key, at[0]);
      assert found == [found[0]];
    } else if |found| > 1 {
      assert at[0] != at[1];
      assert MarkedAt(journals, key, at[0]) && MarkedAt(journals, key, at[1]);
    }
  }

  // ---- what a read-back shows --------------------------------------------------------------------------

  /** The journal is a draft of this proposal, line for line. */
  ghost predicate SameAsApproved(key: Key, j: Journal) {
    && j.status == Draft && j.marker == Some(key) && j.narration == key.content.narration
    && (if |j.date| <= 10 then j.date else j.date[..10]) == key.content.date
    && |j.amounts| == |key.content.lines|
    && forall i :: 0 <= i < |j.amounts| ==> ReadAs(j.amounts[i], key.content.lines[i])
  }

  /** A positive amount is a debit and a negative one a credit of the account. */
  predicate ReadAs(a: (Name, Money), l: Line) {
    && l.account == a.0
    && (a.1 > 0.0 ==> l.debit == a.1 && l.credit == 0.0)
    && (a.1 < 0.0 ==> l.debit == 0.0 && l.credit == -a.1)
    && (a.1 == 0.0 ==> l.debit == 0.0 && l.credit == 0.0)
  }

  lemma {:induction false} DecodedAt(amounts: seq<(Name, Money)>)
    ensures |DecodeLines(amounts)| == |amounts|
    ensures forall i :: 0 <= i < |amounts| ==> DecodeLines(amounts)[i] == DecodeLine(amounts[i])
  {
    hide DecodeLine;
    if amounts != [] { DecodedAt(amounts[..|amounts| - 1]); }
  }

  lemma MatchesExactly(key: Key, j: Journal)
    ensures Matches(key, Read(j)) <==> SameAsApproved(key, j)
  {
    hide DecodeLines;
    DecodedAt(j.amounts);
    var read, lines := DecodeLines(j.amounts), key.content.lines;
    if read == lines {
      forall i | 0 <= i < |j.amounts| ensures ReadAs(j.amounts[i], lines[i]) { assert read[i] == lines[i]; }
    }
    if |j.amounts| == |lines| && forall i :: 0 <= i < |j.amounts| ==> ReadAs(j.amounts[i], lines[i]) {
      forall i | 0 <= i < |lines| ensures read[i] == lines[i] { assert ReadAs(j.amounts[i], lines[i]); }
    }
  }

  // ---- what a status does --------------------------------------------------------------------------------

  /** The action has the status and the id, or the id it had. */
  ghost predicate Recorded(w: World, v: World, key: Key, status: ActionStatus, id: Option<int>) {
    v.actions == w.actions[key := Action(status, if id.Some? then id else if key in w.actions then w.actions[key].journalId else None)]
  }

  /** A failure or an unknown outcome sends an open run to recovery, the last success approves it. */
  ghost predicate PhasesAfter(w: World, v: World, run: Name, status: ActionStatus) {
    var closed := run in w.phases && w.phases[run] in {ApprovedPhase, CancelledPhase};
    var last := forall k :: k in v.actions && k.run == run ==> v.actions[k].status == SucceededAction;
    v.phases == if !closed && status in {FailedAction, OutcomeUnknown} then w.phases[run := ActionFailedPhase]
                else if !closed && status == SucceededAction && last then w.phases[run := ApprovedPhase]
                else w.phases
  }

  lemma MarkEffect(w: World, key: Key, status: ActionStatus, id: Option<int>)
    ensures var v := Mark(w, key, status, id);
            Recorded(w, v, key, status, id) && PhasesAfter(w, v, key.run, status) && v.journals == w.journals
  {
  }

  ghost predicate Ends(w: World, r: (World, Outcome), key: Key, status: ActionStatus, id: Option<int>) {
    && Recorded(w, r.0, key, status, id) && PhasesAfter(w, r.0, key.run, status)
    && (status == SucceededAction ==> r.1 == Done)
    && (status == FailedAction ==> r.1 == FailedBlocked)
    && (status == OutcomeUnknown ==> r.1 == UnknownBlocked)
  }

  /** The action succeeded with the journal's id if the journal is what was approved, and failed if not. */
  ghost predicate EndsBy(w: World, r: (World, Outcome), key: Key, j: Journal) {
    && (SameAsApproved(key, j) ==> Ends(w, r, key, SucceededAction, Some(j.id)))
    && (!SameAsApproved(key, j) ==> Ends(w, r, key, FailedAction, None))
  }

  // ---- the ends of a living worker ----------------------------------------------------------------------------

  lemma ConcludeEnds(w: World, key: Key, s: Script, j: Journal)
    requires s.steps > 5
    ensures EndsBy(w, Conclude(w, key, s, Read(j)), key, j)
  {
    hide Mark, Matches, Read, SameAsApproved, Recorded, PhasesAfter;
    MatchesExactly(key, j);
    ReadId(j);
    MarkEffect(w, key, SucceededAction, Some(j.id));
    MarkEffect(w, key, FailedAction, None);
  }

  lemma RecoverEnds(w: World, key: Key, s: Script)
    requires s.steps > 5
    ensures forall j :: s.searchAgain == Exact && Shows(w.journals, key, j) ==> EndsBy(w, Recover(w, key, s), key, j)
    ensures s.searchAgain != Exact || (forall j :: !Shows(w.journals, key, j)) ==>
              Ends(w, Recover(w, key, s), key, OutcomeUnknown, None)
  {
    hide Mark, Found, Conclude, Read, EndsBy, Shows, Recorded, PhasesAfter;
    MarkEffect(w, key, OutcomeUnknown, None);
    FoundMeaning(w.journals, key);
    var after := Found(w.journals, key);
    if |after| == 1 {
      assert after == [after[0]];
      ConcludeEnds(w, key, s, after[0]);
    }
  }

  /** The approved journal as a draft with a new id. */
  predicate IsDraftOf(key: Key, j: Journal, id: int) {
    j == Journal(id, Some(key), Draft, key.content.narration, key.content.date, EncodeLines(key.content.lines))
  }

  /** The first search answers, and without a journal of this proposal. */
  ghost predicate FindsNone(w: World, key: Key, s: Script) {
    s.search == Stale || (s.search == Exact && Absent(w.journals, key))
  }

  /** The provider's journals after such an answer, and after the create request that follows it. */
  function Afterwards(w: World, key: Key, s: Script): seq<Journal> {
    if s.create == NotCreated then w.journals else w.journals + [Request(key, |w.journals|)]
  }

  /** The execution gets to see this journal: the one its first search found, once it is read back or found
      again; the one it created, if that is answered and read back; or the only one that the second search
      finds. */
  ghost predicate Sees(w: World, key: Key, s: Script, j: Journal) {
    || (s.search == Exact && Shows(w.journals, key, j) && (s.readBack || s.searchAgain == Exact))
    || (FindsNone(w, key, s) && s.create == Created && s.readBack && IsDraftOf(key, j, |w.journals|))
    || (FindsNone(w, key, s) && !(s.create == Created && s.readBack) && s.searchAgain == Exact && Shows(Afterwards(w, key, s), key, j))
  }

  predicate MayPost(key: Key, codes: set<Name>) {
    |key.content.lines| > 0 && forall i :: 0 <= i < |key.content.lines| ==> key.content.lines[i].account in codes
  }

  lemma StartedWorld(w: World, key: Key)
    ensures var u := Mark(Ensure(w, key), key, Started, None);
            Recorded(w, u, key, Started, None) && u.phases == w.phases && u.journals == w.journals
  {
  }

  /** Ending from the started world is ending from the world before. */
  lemma EndsFromStart(w: World, u: World, r: (World, Outcome), key: Key)
    requires Recorded(w, u, key, Started, None) && u.phases == w.phases
    ensures forall status, id :: Ends(u, r, key, status, id) ==> Ends(w, r, key, status, id)
    ensures forall j :: EndsBy(u, r, key, j) ==> EndsBy(w, r, key, j)
  {
    hide SameAsApproved;
    forall status: ActionStatus, id: Option<int> | Ends(u, r, key, status, id) ensures Ends(w, r, key, status, id) {
      assert u.actions[key].journalId == if key in w.actions then w.actions[key].journalId else None;
    }
  }

  lemma ExecuteUnfold(w: World, key: Key, codes: set<Name>, s: Script)
    requires MayPost(key, codes) && !Finished(w, key) && s.steps > 1
    ensures var u := Mark(Ensure(w, key), key, Started, None);
            Execute(w, key, codes, s) ==
              if s.search.NoAnswer? then GiveUp(u, key, s, OutcomeUnknown, UnknownBlocked)
              else
                var found := Answer(u, key, s.search);
                if |found| > 1 then GiveUp(u, key, s, FailedAction, FailedBlocked)
                else if |found| == 1 then ReadBack(u, key, s, found[0])
                else CreateThenRead(u, key, s)
  {
    hide Mark, GiveUp, Answer, ReadBack, CreateThenRead;
  }

  lemma ReadBackEnds(u: World, key: Key, s: Script, j: Journal)
    requires s.steps > 5 && Shows(u.journals, key, j)
    ensures s.readBack || s.searchAgain == Exact ==> EndsBy(u, ReadBack(u, key, s, j), key, j)
    ensures !s.readBack && s.searchAgain != Exact ==> Ends(u, ReadBack(u, key, s, j), key, OutcomeUnknown, None)
  {
    hide Recover, Conclude, Read, EndsBy, Shows, Ends;
    RecoverEnds(u, key, s);
    ConcludeEnds(u, key, s, j);
  }

  lemma EndsOverJournals(u: World, c: World, r: (World, Outcome), key: Key)
    requires u.actions == c.actions && u.phases == c.phases
    ensures forall status, id :: Ends(c, r, key, status, id) ==> Ends(u, r, key, status, id)
    ensures forall j :: EndsBy(c, r, key, j) ==> EndsBy(u, r, key, j)
  {
    hide SameAsApproved;
  }

  lemma CreateEnds(u: World, key: Key, s: Script)
    requires s.steps > 5
    ensures var r, after := CreateThenRead(u, key, s), Afterwards(u, key, s);
            && (s.create == Created && s.readBack ==> EndsBy(u, r, key, Request(key, |u.journals|)))
            && (!(s.create == Created && s.readBack) ==>
                  && (forall j :: s.searchAgain == Exact && Shows(after, key, j) ==> EndsBy(u, r, key, j))
                  && (s.searchAgain != Exact || (forall j :: !Shows(after, key, j)) ==> Ends(u, r, key, OutcomeUnknown, None)))
  {
    hide Recover, Conclude, Read, EndsBy, Shows, Ends, Request;
    var c := Create(u, key);
    RecoverEnds(u, key, s);
    RecoverEnds(c, key, s);
    ConcludeEnds(c, key, s, Request(key, |u.journals|));
    EndsOverJournals(u, c, CreateThenRead(u, key, s), key);
  }

  /** A permitted, unfinished execution of a worker that lives: it ends by the journal it gets to see; with
      several journals found it has failed; otherwise the outcome is unknown. */
  lemma LivingWorkerEnds(w: World, key: Key, codes: set<Name>, s: Script)
    requires MayPost(key, codes) && !Finished(w, key) && s.steps > 5
    ensures var r := Execute(w, key, codes, s);
            && (forall j :: Sees(w, key, s, j) ==> EndsBy(w, r, key, j))
            && (s.search == Exact && Several(w.journals, key) ==> Ends(w, r, key, FailedAction, None))
            && (!(s.search == Exact && Several(w.journals, key)) && (forall j :: !Sees(w, key, s, j)) ==>
                  Ends(w, r, key, OutcomeUnknown, None))
  {
    hide Execute, Mark, Found, ReadBack, CreateThenRead, Shows, EndsBy, Ends, Several, Request, SameAsApproved, Recorded, Absent,
         Ensure, MayPost;
    ExecuteUnfold(w, key, codes, s);
    StartedWorld(w, key);
    var u, r := Mark(Ensure(w, key), key, Started, None), Execute(w, key, codes, s);
    EndsFromStart(w, u, r, key);
    FoundMeaning(w.journals, key);
    MarkEnds(u, key, s);
    var found := Found(w.journals, key);
    if s.search == Exact && |found| == 1 {
      assert found == [found[0]];
      ReadBackEnds(u, key, s, found[0]);
      assert s.readBack || s.searchAgain == Exact ==> Sees(w, key, s, found[0]);
    } else if s.search != NoAnswer && !(s.search == Exact && |found| > 1) {
      CreatedEnds(w, u, key, s);
    }
  }

  lemma CreatedEnds(w: World, u: World, key: Key, s: Script)
    requires FindsNone(w, key, s) && s.steps > 5 && u.journals == w.journals
    ensures var r := CreateThenRead(u, key, s);
            && (forall j :: Sees(w, key, s, j) ==> EndsBy(u, r, key, j))
            && ((forall j :: !Sees(w, key, s, j)) ==> Ends(u, r, key, OutcomeUnknown, None))
  {
    hide Sees, Shows, EndsBy, Ends, CreateThenRead, Request;
    CreateEnds(u, key, s);
    SeenAfterCreate(w, key, s);
    assert Afterwards(u, key, s) == Afterwards(w, key, s);
    if s.create == Created && s.readBack {
      assert Sees(w, key, s, Request(key, |w.journals|));
    }
  }

  lemma SeenAfterCreate(w: World, key: Key, s: Script)
    requires FindsNone(w, key, s)
    ensures s.create == Created && s.readBack ==> forall j :: Sees(w, key, s, j) <==> j == Request(key, |w.journals|)
    ensures !(s.create == Created && s.readBack) ==>
              forall j :: Sees(w, key, s, j) <==> s.searchAgain == Exact && Shows(Afterwards(w, key, s), key, j)
  {
    hide Request;
    RequestIsDraft(key, |w.journals|);
  }

  lemma RequestIsDraft(key: Key, id: int)
    ensures forall j :: IsDraftOf(key, j, id) <==> j == Request(key, id)
  {
  }

  lemma MarkEnds(u: World, key: Key, s: Script)
    requires s.steps > 5
    ensures Ends(u, GiveUp(u, key, s, OutcomeUnknown, UnknownBlocked), key, OutcomeUnknown, None)
    ensures Ends(u, GiveUp(u, key, s, FailedAction, FailedBlocked), key, FailedAction, None)
  {
    hide Mark;
    MarkEffect(u, key, OutcomeUnknown, None);
    MarkEffect(u, key, FailedAction, None);
  }

  // ---- workers that die, and executions with nothing to do -----------------------------------------------

  lemma RecoverDies(u: World, key: Key, s: Script, j: Journal)
    requires s.steps <= 5
    ensures Recover(u, key, s) == (u, Dead) && ReadBack(u, key, s, j) == (u, Dead)
    ensures forall status, outcome :: GiveUp(u, key, s, status, outcome) == (u, Dead)
  {
    hide Mark, Found, Matches, Read;
  }

  lemma DyingWorkerStops(w: World, key: Key, codes: set<Name>, s: Script)
    requires MayPost(key, codes) && !Finished(w, key) && 1 < s.steps <= 5
    ensures var u, r := Mark(Ensure(w, key), key, Started, None), Execute(w, key, codes, s);
            r.1 == Dead && r.0.actions == u.actions && r.0.phases == u.phases
  {
    hide Mark, Ensure, Found, ReadBack, Recover, GiveUp, MayPost, Execute, Request;
    ExecuteUnfold(w, key, codes, s);
    var u := Mark(Ensure(w, key), key, Started, None);
    forall j ensures ReadBack(u, key, s, j) == (u, Dead) { RecoverDies(u, key, s, j); }
    var c := Create(u, key);
    RecoverDies(u, key, s, Request(key, 0));
    RecoverDies(c, key, s, Request(key, |u.journals|));
  }

  lemma LivingWorkerDone(w: World, key: Key, codes: set<Name>, s: Script)
    requires MayPost(key, codes) && !Finished(w, key) && s.steps > 5
    ensures Execute(w, key, codes, s).1 in {Done, FailedBlocked, UnknownBlocked}
  {
    hide Execute, Sees, SameAsApproved, Recorded, PhasesAfter, MayPost;
    LivingWorkerEnds(w, key, codes, s);
    if j :| Sees(w, key, s, j) {
      assert EndsBy(w, Execute(w, key, codes, s), key, j);
    }
  }

  lemma IdleEnds(w: World, key: Key, codes: set<Name>, s: Script)
    requires !MayPost(key, codes) || s.steps <= 1 || Finished(w, key)
    ensures Execute(w, key, codes, s)
         == if !MayPost(key, codes) then (w, BadProposal) else if s.steps == 0 then (w, Dead)
            else if Finished(w, key) then (w, AlreadyDone) else (Ensure(w, key), Dead)
  {
    hide Mark, GiveUp, Answer, ReadBack, CreateThenRead;
  }

  /** An execution is rejected exactly for a proposal without lines or with a foreign account, done already
      exactly for a finished action, and cut short exactly when the worker dies on the way; nothing of the
      three changes what the provider holds unless the create request was sent. */
  lemma OtherEnds(w: World, key: Key, codes: set<Name>, s: Script)
    ensures var (v, outcome) := Execute(w, key, codes, s);
            && (outcome == BadProposal <==> !MayPost(key, codes))
            && (outcome == AlreadyDone <==> MayPost(key, codes) && s.steps > 0 && Finished(w, key))
            && (outcome == Dead <==> MayPost(key, codes) && (s.steps == 0 || (s.steps <= 5 && !Finished(w, key))))
            && (outcome == BadProposal || outcome == AlreadyDone || (outcome == Dead && s.steps == 0) ==> v == w)
            && (outcome == Dead && s.steps > 0 ==>
                  && v.phases == w.phases
                  && Recorded(w, v, key, if s.steps > 1 then Started else if key in w.actions then w.actions[key].status else Prepared, None))
  {
    hide Execute, Mark, MayPost;
    StartedWorld(w, key);
    if !MayPost(key, codes) || s.steps <= 1 || Finished(w, key) {
      IdleEnds(w, key, codes, s);
    } else if s.steps > 5 {
      LivingWorkerDone(w, key, codes, s);
    } else {
      DyingWorkerStops(w, key, codes, s);
    }
  }

  // ---- when a retry recovers ----------------------------------------------------------------------------------

  /** The answers of one execution are enough to see the proposal's only draft. */
  ghost predicate Answered(w: World, key: Key, s: Script) {
    && s.search == Exact
    && (if Absent(w.journals, key) then (s.create == Created && s.readBack) || (s.create != NotCreated && s.searchAgain == Exact)
        else s.readBack || s.searchAgain == Exact)
  }

  /** After any history of crashed, retried and repeated executions, one more by a worker that lives leaves
      the action succeeded, with the proposal's only draft, exactly when it had succeeded before, or the
      content can be read back and the answers are enough to see the draft. */
  lemma RecoversExactlyWhen(hs: seq<Happening>, key: Key, codes: set<Name>, s: Script)
    requires forall h :: h in hs ==> Fair(h)
    requires MayPost(key, codes) && s.steps > 5 && s.search != Stale
    ensures var w, v := History(hs), Execute(History(hs), key, codes, s).0;
            && (Finished(v, key) <==> Finished(w, key) || (Faithful(key.content) && Answered(w, key, s)))
            && (Finished(v, key) ==> exists j :: Shows(v.journals, key, j) && v.actions[key].journalId == Some(j.id))
  {
    hide History, Execute, KeyOk, Found, Shows, MayPost, Faithful, Answered, Request;
    var w, v := History(hs), Execute(History(hs), key, codes, s).0;
    HistoryKeeps(hs, key);
    ExecuteKeeps(w, key, codes, s, key);
    if Finished(v, key) { FinishedShows(v, key); }
    if Finished(w, key) {
      SucceededIsFinal(w, key, codes, s);
    } else {
      RecoversFromUnfinished(w, key, codes, s);
    }
  }

  lemma FinishedShows(w: World, key: Key)
    requires KeyOk(w, key) && Finished(w, key)
    ensures exists j :: Shows(w.journals, key, j) && w.actions[key].journalId == Some(j.id)
  {
    hide Found, Shows, Request, Faithful;
    FoundMeaning(w.journals, key);
    var j := Found(w.journals, key)[0];
    assert Found(w.journals, key) == [j];
  }

  lemma RecoversFromUnfinished(w: World, key: Key, codes: set<Name>, s: Script)
    requires KeyOk(w, key) && !Finished(w, key) && MayPost(key, codes) && s.steps > 5 && s.search != Stale
    ensures Finished(Execute(w, key, codes, s).0, key) <==> Faithful(key.content) && Answered(w, key, s)
  {
    hide Execute, KeyOk, MayPost, Faithful, Answered, EndsBy, Ends, Sees, SameAsApproved;
    LivingWorkerEnds(w, key, codes, s);
    SeenExactlyWhen(w, key, s);
    var r := Execute(w, key, codes, s);
    NotSeveral(w, key);
    if j :| Sees(w, key, s, j) {
      SeenAsApproved(w, key, s, j);
      EndedBy(w, r, key, j);
    } else {
      EndedUnknown(w, r, key);
    }
  }

  lemma NotSeveral(w: World, key: Key)
    requires KeyOk(w, key)
    ensures !Several(w.journals, key)
  {
    hide Found, Several, Request;
    FoundMeaning(w.journals, key);
  }

  lemma EndedBy(w: World, r: (World, Outcome), key: Key, j: Journal)
    requires EndsBy(w, r, key, j)
    ensures Finished(r.0, key) <==> SameAsApproved(key, j)
  {
    hide SameAsApproved, PhasesAfter;
  }

  lemma EndedUnknown(w: World, r: (World, Outcome), key: Key)
    requires Ends(w, r, key, OutcomeUnknown, None)
    ensures !Finished(r.0, key)
  {
  }

  /** After an add at the end, the only marked journal is the added one if none was marked. */
  lemma ShowsSnoc(journals: seq<Journal>, key: Key, j: Journal)
    requires Absent(journals, key) && j.marker == Some(key)
    ensures forall x :: Shows(journals + [j], key, x) <==> x == j
  {
    hide Found, Shows, Absent;
    FoundSnoc(journals, j, key);
    FoundMeaning(journals, key);
    FoundMeaning(journals + [j], key);
  }

  lemma HeldDraft(w: World, key: Key)
    requires KeyOk(w, key)
    ensures Absent(w.journals, key) || exists j :: Shows(w.journals, key, j)
    ensures forall j :: Shows(w.journals, key, j) ==> j == Request(key, j.id) && !Absent(w.journals, key)
  {
    hide Found, Shows, Absent, Request;
    FoundMeaning(w.journals, key);
    var found := Found(w.journals, key);
    if |found| == 1 { assert found == [found[0]]; }
  }

  lemma SeenExactlyWhen(w: World, key: Key, s: Script)
    requires KeyOk(w, key) && s.search != Stale
    ensures (exists j :: Sees(w, key, s, j)) <==> Answered(w, key, s)
  {
    hide KeyOk, Shows, Absent;
    HeldDraft(w, key);
    var j := Request(key, |w.journals|);
    if Absent(w.journals, key) {
      ShowsSnoc(w.journals, key, j);
      assert Answered(w, key, s) ==> Sees(w, key, s, j);
    } else {
      var held :| Shows(w.journals, key, held);
      assert Answered(w, key, s) ==> Sees(w, key, s, held);
    }
  }

  lemma SeenAsApproved(w: World, key: Key, s: Script, j: Journal)
    requires KeyOk(w, key) && s.search != Stale && Sees(w, key, s, j)
    ensures SameAsApproved(key, j) <==> Faithful(key.content)
  {
    hide KeyOk, Shows, Absent, SameAsApproved, Faithful, Matches, Read;
    HeldDraft(w, key);
    if Absent(w.journals, key) { ShowsSnoc(w.journals, key, Request(key, |w.journals|)); }
    assert j == Request(key, j.id);
    MatchesExactly(key, j);
    ReadBackMatchesExactly(key, j.id);
  }
}
