/** At most one DRAFT per run and proposal, whatever the crashes and lost answers. */
module DraftActionsTheorems {
  import opened Names
  import opened DraftActions

  // ---- the line encoding -------------------------------------------------------------------------

  predicate OneSided(l: Line) {
    l.debit >= 0.0 && l.credit >= 0.0 && (l.debit == 0.0 || l.credit == 0.0)
  }

  predicate AllOneSided(lines: seq<Line>) {
    forall l :: l in lines ==> OneSided(l)
  }

  lemma {:induction false} DecodeLength(lines: seq<Line>)
    ensures |DecodeLines(EncodeLines(lines))| == |lines|
  {
    if lines != [] {
      DecodeLength(lines[..|lines| - 1]);
    }
  }

  lemma LineRoundTrips(l: Line)
    ensures DecodeLine(EncodeLine(l)) == l <==> OneSided(l)
  {
  }

  /** Signing the amounts and reading them back gives the lines exactly when each line has
      one non-negative side and nothing on the other. */
  lemma {:induction false} LinesRoundTrip(lines: seq<Line>)
    ensures DecodeLines(EncodeLines(lines)) == lines <==> AllOneSided(lines)
  {
    if lines != [] {
      var rest, last := lines[..|lines| - 1], lines[|lines| - 1];
      assert lines == rest + [last];
      LinesRoundTrip(rest);
      DecodeLength(rest);
      LineRoundTrips(last);
      var read, again := DecodeLines(EncodeLines(rest)), DecodeLine(EncodeLine(last));
      assert forall l :: l in lines <==> l in rest || l == last;
      assert (read + [again])[..|rest|] == read && (read + [again])[|rest|] == again;
      assert read + [again] == lines <==> read == rest && again == last;
    }
  }

  /** Contents a read-back of the stored request reproduces. */
  predicate Faithful(content: Content) {
    AllOneSided(content.lines) && |content.date| <= 10
  }

  lemma ReadBackMatchesExactly(key: Key, id: int)
    ensures Matches(key, Read(Request(key, id))) <==> Faithful(key.content)
  {
    LinesRoundTrip(key.content.lines);
  }

  // ---- what every execution keeps ----------------------------------------------------------------------

  ghost predicate KeyOk(w: World, key: Key) {
    var found := Found(w.journals, key);
    && |found| <= 1
    && (|found| == 1 ==> found[0] == Request(key, found[0].id))
    && (key in w.actions && w.actions[key].status == SucceededAction ==>
          |found| == 1 && w.actions[key].journalId == Some(found[0].id) && Faithful(key.content))
    && (key in w.actions && w.actions[key].status == FailedAction ==> !Faithful(key.content))
  }

  lemma FoundSnoc(journals: seq<Journal>, j: Journal, key: Key)
    ensures Found(journals + [j], key) == Found(journals, key) + if j.marker == Some(key) then [j] else []
  {
    assert (journals + [j])[..|journals|] == journals;
  }

  /** Only the marked key's action changes, and no journal does. */
  lemma MarkShape(w: World, k: Key, status: ActionStatus, id: Option<int>, key: Key)
    ensures var v := Mark(w, k, status, id);
            && v.journals == w.journals
            && (key in v.actions <==> key in w.actions || key == k)
            && (key != k && key in w.actions ==> v.actions[key] == w.actions[key])
            && v.actions[k].status == status && (id.Some? ==> v.actions[k].journalId == id)
  {
    hide Found;
  }

  lemma MarkKeeps(w: World, k: Key, status: ActionStatus, id: Option<int>, key: Key)
    requires KeyOk(w, key)
    requires key == k && status == SucceededAction ==>
               Faithful(k.content) && |Found(w.journals, k)| == 1 && id == Some(Found(w.journals, k)[0].id)
    requires key == k && status == FailedAction ==> !Faithful(k.content)
    ensures KeyOk(Mark(w, k, status, id), key)
  {
    hide Mark, Faithful, Found, Request;
    MarkShape(w, k, status, id, key);
  }

  lemma ConcludeKeeps(w: World, k: Key, s: Script, key: Key)
    requires KeyOk(w, key) && KeyOk(w, k) && |Found(w.journals, k)| == 1
    ensures KeyOk(Conclude(w, k, s, Read(Found(w.journals, k)[0])).0, key)
  {
    hide Mark, Faithful, Found, Request, Read, Matches;
    var j := Found(w.journals, k)[0];
    ReadBackMatchesExactly(k, j.id);
    ReadId(j);
    if Matches(k, Read(j)) {
      MarkKeeps(w, k, SucceededAction, Some(j.id), key);
    } else {
      MarkKeeps(w, k, FailedAction, None, key);
    }
  }

  lemma ReadId(j: Journal)
    ensures Read(j).id == j.id
  {
  }

  lemma RecoverKeeps(w: World, k: Key, s: Script, key: Key)
    requires KeyOk(w, key) && KeyOk(w, k)
    ensures KeyOk(Recover(w, k, s).0, key)
  {
    hide Mark, Faithful, Found, Request, Read, Conclude, KeyOk;
    MarkKeeps(w, k, OutcomeUnknown, None, key);
    if |Found(w.journals, k)| == 1 { ConcludeKeeps(w, k, s, key); }
  }

  lemma ReadBackKeeps(w: World, k: Key, s: Script, key: Key)
    requires KeyOk(w, key) && KeyOk(w, k) && |Found(w.journals, k)| == 1
    ensures KeyOk(ReadBack(w, k, s, Found(w.journals, k)[0]).0, key)
  {
    hide Mark, Faithful, Found, Request, Read, Conclude, Recover, KeyOk;
    RecoverKeeps(w, k, s, key);
    ConcludeKeeps(w, k, s, key);
  }

  lemma CreateKeeps(w: World, k: Key, key: Key)
    requires KeyOk(w, key) && Found(w.journals, k) == []
    requires k in w.actions && w.actions[k].status == Started
    ensures KeyOk(Create(w, k), key)
    ensures Found(Create(w, k).journals, k) == [Request(k, |w.journals|)]
  {
    hide Found, Faithful, EncodeLines;
    FoundSnoc(w.journals, Request(k, |w.journals|), key);
    FoundSnoc(w.journals, Request(k, |w.journals|), k);
  }

  lemma CreateThenReadKeeps(w: World, k: Key, s: Script, key: Key)
    requires KeyOk(w, key) && KeyOk(w, k) && Found(w.journals, k) == []
    requires k in w.actions && w.actions[k].status == Started
    ensures KeyOk(CreateThenRead(w, k, s).0, key)
  {
    hide Found, Request, Recover, ReadBack, KeyOk;
    RecoverKeeps(w, k, s, key);
    CreateKeeps(w, k, key);
    CreateKeeps(w, k, k);
    RecoverKeeps(Create(w, k), k, s, key);
    ReadBackKeeps(Create(w, k), k, s, key);
    assert Create(w, k).journals[|w.journals|] == Found(Create(w, k).journals, k)[0];
  }

  lemma EnsureKeeps(w: World, k: Key, key: Key)
    requires KeyOk(w, key)
    ensures KeyOk(Ensure(w, k), key)
  {
    hide Found, Faithful, Request;
  }

  /** Whatever happens outside, as long as the first search does not miss a journal it should find. */
  lemma ExecuteKeeps(w: World, k: Key, codes: set<Name>, s: Script, key: Key)
    requires KeyOk(w, key) && KeyOk(w, k) && !s.search.Stale?
    ensures KeyOk(Execute(w, k, codes, s).0, key)
  {
    hide Found, Mark, Permitted, KeyOk, ReadBack, CreateThenRead, Ensure;
    EnsureKeeps(w, k, key);
    EnsureKeeps(w, k, k);
    var v := Ensure(w, k);
    var u := Mark(v, k, Started, None);
    MarkKeeps(v, k, Started, None, key);
    MarkKeeps(v, k, Started, None, k);
    MarkShape(v, k, Started, None, k);
    FoundAtMostOne(u, k);
    MarkKeeps(u, k, OutcomeUnknown, None, key);
    if |Found(u.journals, k)| == 1 {
      ReadBackKeeps(u, k, s, key);
    } else {
      CreateThenReadKeeps(u, k, s, key);
    }
  }

  lemma FoundAtMostOne(w: World, k: Key)
    requires KeyOk(w, k)
    ensures |Found(w.journals, k)| <= 1
  {
  }

  // ---- histories ------------------------------------------------------------------------------------------

  /** One execution by whichever worker holds the task, or a journal somebody else writes. */
  datatype Happening = Attempt(key: Key, codes: set<Name>, script: Script) | Foreign(journal: Journal)

  function Happen(w: World, h: Happening): World {
    match h
    case Attempt(key, codes, s) => Execute(w, key, codes, s).0
    case Foreign(j) => w.(journals := w.journals + [j])
  }

  ghost predicate Fair(h: Happening) {
    match h
    case Attempt(_, _, s) => !s.search.Stale?
    case Foreign(j) => j.marker.None?
  }

  function History(hs: seq<Happening>): World {
    if hs == [] then World(map[], map[], []) else Happen(History(hs[..|hs| - 1]), hs[|hs| - 1])
  }

  lemma {:induction false} HistoryKeeps(hs: seq<Happening>, key: Key)
    requires forall h :: h in hs ==> Fair(h)
    ensures KeyOk(History(hs), key)
  {
    hide Execute, Found, Faithful;
    if hs == [] {
      NothingFound(key);
    } else {
      var rest, last := hs[..|hs| - 1], hs[|hs| - 1];
      assert last in hs;
      HistoryKeeps(rest, key);
      match last {
        case Attempt(k, codes, s) =>
          HistoryKeeps(rest, k);
          ExecuteKeeps(History(rest), k, codes, s, key);
        case Foreign(j) => FoundSnoc(History(rest).journals, j, key);
      }
    }
  }

  lemma NothingFound(key: Key)
    ensures Found([], key) == []
  {
  }

  /** After any number of crashed, retried and repeated executions there is at most one DRAFT
      per run and proposal; a succeeded action names it and it reads back as approved; and
      an action fails only for a content no read-back can reproduce. */
  lemma AtMostOneDraft(hs: seq<Happening>, key: Key)
    requires forall h :: h in hs ==> Fair(h)
    ensures var w := History(hs);
            var found := Found(w.journals, key);
            && |found| <= 1
            && (key in w.actions && w.actions[key].status == SucceededAction ==>
                  |found| == 1 && w.actions[key].journalId == Some(found[0].id) && Matches(key, Read(found[0])))
            && (key in w.actions && w.actions[key].status == FailedAction ==> !Faithful(key.content))
  {
    hide History, Found, Matches, Read, Request, Faithful;
    HistoryKeeps(hs, key);
    var found := Found(History(hs).journals, key);
    if |found| == 1 { ReadBackMatchesExactly(key, found[0].id); }
  }

  /** A finished action is never touched again. */
  lemma SucceededIsFinal(w: World, key: Key, codes: set<Name>, s: Script)
    requires key in w.actions && w.actions[key].status == SucceededAction
    ensures Execute(w, key, codes, s).0 == w
  {
    hide Mark, Found, Permitted, Answer, ReadBack, CreateThenRead;
  }

  ghost predicate Undisturbed(s: Script) {
    s.steps > 5 && s.search.Exact? && s.create.Created? && s.readBack
  }

  /** From any such history, one undisturbed execution ends with exactly one DRAFT, recorded. */
  lemma RetryRecovers(hs: seq<Happening>, key: Key, codes: set<Name>, s: Script)
    requires forall h :: h in hs ==> Fair(h)
    requires Permitted(key, codes) && Faithful(key.content) && Undisturbed(s)
    ensures var (w, outcome) := Execute(History(hs), key, codes, s);
            && (outcome.Done? || outcome.AlreadyDone?)
            && key in w.actions && w.actions[key].status == SucceededAction && |Found(w.journals, key)| == 1
  {
    hide History, Found, Mark, Permitted, KeyOk, Matches, Read, Request, Faithful;
    HistoryKeeps(hs, key);
    var w := History(hs);
    EnsureKeeps(w, key, key);
    var v := Ensure(w, key);
    MarkKeeps(v, key, Started, None, key);
    MarkShape(v, key, Started, None, key);
    var u := Mark(v, key, Started, None);
    SucceededHasDraft(v, key);
    FoundAtMostOne(u, key);
    FoundIsRequest(u, key);
    if |Found(u.journals, key)| == 1 {
      var j := Found(u.journals, key)[0];
      ReadBackMatchesExactly(key, j.id);
      MarkShape(u, key, SucceededAction, Some(Read(j).id), key);
    } else {
      CreateKeeps(u, key, key);
      var c := Create(u, key);
      var j := c.journals[|u.journals|];
      ReadBackMatchesExactly(key, |u.journals|);
      MarkShape(c, key, SucceededAction, Some(Read(j).id), key);
    }
  }

  lemma SucceededHasDraft(w: World, key: Key)
    requires KeyOk(w, key)
    ensures key in w.actions && w.actions[key].status == SucceededAction ==> |Found(w.journals, key)| == 1
  {
  }

  lemma FoundIsRequest(w: World, key: Key)
    requires KeyOk(w, key)
    ensures |Found(w.journals, key)| == 1 ==> Found(w.journals, key)[0] == Request(key, Found(w.journals, key)[0].id)
  {
  }

  predicate Finished(w: World, key: Key) {
    key in w.actions && w.actions[key].status == SucceededAction
  }

  /** A search that misses what the provider holds adds a draft on top of those there are. */
  lemma StaleSearchCreates(w: World, key: Key, codes: set<Name>)
    requires Permitted(key, codes) && !Finished(w, key)
    ensures var v := Execute(w, key, codes, Script(6, Stale, Created, true, Exact)).0;
            |Found(v.journals, key)| == |Found(w.journals, key)| + 1
  {
    hide Mark, Permitted, Matches, Read, Found;
    var u := Mark(Ensure(w, key), key, Started, None);
    MarkShape(Ensure(w, key), key, Started, None, key);
    FoundSnoc(u.journals, Request(key, |u.journals|), key);
    var v := Create(u, key);
    MarkShape(v, key, SucceededAction, Some(Read(v.journals[|u.journals|]).id), key);
    MarkShape(v, key, FailedAction, None, key);
  }

  /** A create whose answer is lost, and whose second search gets no answer, leaves a draft and an unfinished action. */
  lemma LostAnswerLeavesDraft(w: World, key: Key, codes: set<Name>)
    requires Permitted(key, codes) && !Finished(w, key) && Found(w.journals, key) == []
    ensures var v := Execute(w, key, codes, Script(6, Exact, CreatedUnheard, true, NoAnswer)).0;
            |Found(v.journals, key)| == 1 && !Finished(v, key)
  {
    hide Mark, Permitted, Matches, Read, Found;
    var u := Mark(Ensure(w, key), key, Started, None);
    MarkShape(Ensure(w, key), key, Started, None, key);
    FoundSnoc(u.journals, Request(key, |u.journals|), key);
    MarkShape(Create(u, key), key, OutcomeUnknown, None, key);
  }

  /** The premise on the search is needed: a lost answer followed by a search that misses the
      journal leaves two drafts for one proposal. */
  lemma StaleSearchDuplicates(key: Key, codes: set<Name>)
    requires Permitted(key, codes)
    ensures var lost := Attempt(key, codes, Script(6, Exact, CreatedUnheard, true, NoAnswer));
            var stale := Attempt(key, codes, Script(6, Stale, Created, true, Exact));
            |Found(History([lost, stale]).journals, key)| == 2
  {
    hide Execute, Found, Permitted;
    var lost := Attempt(key, codes, Script(6, Exact, CreatedUnheard, true, NoAnswer));
    var stale := Attempt(key, codes, Script(6, Stale, Created, true, Exact));
    assert [lost][..0] == [] && [lost, stale][..1] == [lost];
    assert History([lost][..0]) == World(map[], map[], []);
    NothingFound(key);
    LostAnswerLeavesDraft(World(map[], map[], []), key, codes);
    StaleSearchCreates(History([lost]), key, codes);
  }

  // ---- when drafts multiply --------------------------------------------------------------------------------

  /** An execution for `key` creates a journal although the provider already holds one. */
  ghost predicate MissesADraft(w: World, h: Happening, key: Key) {
    h.Attempt? && h.key == key && SendsCreate(w, key, h.codes, h.script) && Found(w.journals, key) != []
  }

  /** Only a stale search can do that. */
  lemma MissingIsStale(w: World, h: Happening, key: Key)
    requires MissesADraft(w, h, key)
    ensures h.Attempt? && h.script.search.Stale?
  {
  }

  ghost predicate MissesAt(hs: seq<Happening>, n: nat, key: Key)
    requires n < |hs|
  {
    MissesADraft(History(hs[..n]), hs[n], key)
  }

  /** How one step changes the number of drafts of a key. */
  lemma FoundAfter(w: World, h: Happening, key: Key)
    requires h.Foreign? ==> h.journal.marker.None?
    ensures |Found(Happen(w, h).journals, key)|
         == |Found(w.journals, key)| + if h.Attempt? && h.key == key && SendsCreate(w, key, h.codes, h.script) then 1 else 0
  {
    hide Execute, Found, SendsCreate;
    match h {
      case Attempt(k, codes, s) =>
        ExecuteCreates(w, k, codes, s);
        FoundSnoc(w.journals, Request(k, |w.journals|), key);
      case Foreign(j) => FoundSnoc(w.journals, j, key);
    }
  }

  lemma {:induction false} MissedDraftsMultiply(hs: seq<Happening>, key: Key)
    requires forall h :: h in hs && h.Foreign? ==> h.journal.marker.None?
    ensures |Found(History(hs).journals, key)| > 1 <==> exists n :: 0 <= n < |hs| && MissesAt(hs, n, key)
  {
    hide Happen, Found, SendsCreate;
    if hs == [] {
      NothingFound(key);
    } else {
      var rest, last := hs[..|hs| - 1], hs[|hs| - 1];
      assert last in hs;
      MissedDraftsMultiply(rest, key);
      FoundAfter(History(rest), last, key);
      forall n | 0 <= n < |rest| ensures MissesAt(hs, n, key) <==> MissesAt(rest, n, key) { assert rest[..n] == hs[..n]; }
      assert MissesAt(hs, |rest|, key) <==> MissesADraft(History(rest), last, key);
      if |Found(History(rest).journals, key)| > 1 {
        var n :| 0 <= n < |rest| && MissesAt(rest, n, key);
        assert MissesAt(hs, n, key);
      }
    }
  }

  /** Over any history, whatever the searches answer, a run's proposal has more than one draft
      exactly when some execution missed a draft that was there, and only a stale search does. */
  lemma DraftsMultiplyExactlyWhen(hs: seq<Happening>, key: Key)
    requires forall h :: h in hs && h.Foreign? ==> h.journal.marker.None?
    ensures |Found(History(hs).journals, key)| > 1 <==> exists n :: 0 <= n < |hs| && MissesAt(hs, n, key)
    ensures forall n :: 0 <= n < |hs| && MissesAt(hs, n, key) ==> hs[n].Attempt? && hs[n].script.search.Stale?
  {
    hide History, Found, SendsCreate;
    MissedDraftsMultiply(hs, key);
    forall n | 0 <= n < |hs| && MissesAt(hs, n, key) ensures hs[n].Attempt? && hs[n].script.search.Stale? {
      MissingIsStale(History(hs[..n]), hs[n], key);
    }
  }

  // ---- approving the run -----------------------------------------------------------------------------------

  ghost predicate CarriedOut(w: World, approved: set<Key>) {
    forall k :: k in approved ==> k in w.actions && w.actions[k].status == SucceededAction
  }

  /** When a success moves the run to approved, the approved proposals are all carried out
      exactly when all of them had been recorded as actions by then. */
  lemma ApprovalIsCompleteExactlyWhen(w: World, key: Key, id: int, approved: set<Key>)
    requires Phase(w, key.run) != ApprovedPhase && Phase(Mark(w, key, SucceededAction, Some(id)), key.run) == ApprovedPhase
    requires forall k :: k in approved ==> k.run == key.run
    ensures CarriedOut(Mark(w, key, SucceededAction, Some(id)), approved)
       <==> (forall k :: k in approved ==> k in w.actions || k == key)
  {
    var v := Mark(w, key, SucceededAction, Some(id));
    forall k ensures k in v.actions <==> k in w.actions || k == key { MarkShape(w, key, SucceededAction, Some(id), k); }
    assert AllSucceeded(v.actions, key.run);
  }

  /** Executing one of two approved proposals approves the run with the other one untouched. */
  lemma ApprovedTooEarly(first: Key, second: Key, codes: set<Name>)
    requires first != second && first.run == second.run && Permitted(first, codes) && Faithful(first.content)
    ensures var w := History([Attempt(first, codes, Script(6, Exact, Created, true, Exact))]);
            Phase(w, first.run) == ApprovedPhase && second !in w.actions
  {
    hide Permitted, Matches, Read, Faithful, Found;
    var h := Attempt(first, codes, Script(6, Exact, Created, true, Exact));
    assert [h][..0] == [];
    NothingFound(first);
    ReadBackMatchesExactly(first, 0);
    var none: seq<Journal> := [];
    assert none + [Request(first, 0)] == [Request(first, 0)];
  }

  // ---- what a draft may contain --------------------------------------------------------------------------------

  /** The execution gets to a create request that takes effect: it is permitted, the action is
      unfinished, the worker lives that far, and the search answers without a journal. */
  predicate SendsCreate(w: World, key: Key, codes: set<Name>, s: Script) {
    && Permitted(key, codes) && !Finished(w, key) && s.steps > 2
    && !s.search.NoAnswer? && Answer(w, key, s.search) == []
    && !s.create.NotCreated?
  }

  /** One execution creates at most one journal, exactly when it gets to such a request. */
  lemma ExecuteCreates(w: World, key: Key, codes: set<Name>, s: Script)
    ensures Execute(w, key, codes, s).0.journals
         == if SendsCreate(w, key, codes, s) then w.journals + [Request(key, |w.journals|)] else w.journals
  {
    hide Mark, Permitted, Matches, Read, Found, Request;
    var u := Mark(Ensure(w, key), key, Started, None);
    MarkShape(Ensure(w, key), key, Started, None, key);
    EndsKeepJournals(u, key, s);
    EndsKeepJournals(Create(u, key), key, s);
  }

  lemma EndsKeepJournals(w: World, key: Key, s: Script)
    ensures Recover(w, key, s).0.journals == w.journals
    ensures GiveUp(w, key, s, OutcomeUnknown, UnknownBlocked).0.journals == w.journals
    ensures GiveUp(w, key, s, FailedAction, FailedBlocked).0.journals == w.journals
    ensures forall j :: ReadBack(w, key, s, j).0.journals == w.journals
  {
    hide Mark, Matches, Read, Found;
    MarkShape(w, key, OutcomeUnknown, None, key);
    MarkShape(w, key, FailedAction, None, key);
    forall id ensures Mark(w, key, SucceededAction, Some(id)).journals == w.journals {
      MarkShape(w, key, SucceededAction, Some(id), key);
    }
  }

  ghost predicate WithinCodes(h: Happening, allowed: set<Name>) {
    h.Attempt? ==> h.codes <= allowed
  }

  ghost predicate Clean(w: World, allowed: set<Name>) {
    forall i :: 0 <= i < |w.journals| && w.journals[i].marker.Some? ==> Permitted(w.journals[i].marker.value, allowed)
  }

  /** No draft of the engine ever touches an account outside the frozen mappings. */
  lemma {:induction false} DraftsUsePermittedCodes(hs: seq<Happening>, allowed: set<Name>)
    requires forall h :: h in hs ==> Fair(h) && WithinCodes(h, allowed)
    ensures Clean(History(hs), allowed)
  {
    hide Execute, Permitted;
    if hs != [] {
      var rest, last := hs[..|hs| - 1], hs[|hs| - 1];
      assert last in hs;
      DraftsUsePermittedCodes(rest, allowed);
      if last.Attempt? {
        ExecuteCreates(History(rest), last.key, last.codes, last.script);
        PermittedInMore(last.key, last.codes, allowed);
      }
    }
  }

  lemma PermittedInMore(key: Key, codes: set<Name>, allowed: set<Name>)
    requires codes <= allowed
    ensures Permitted(key, codes) ==> Permitted(key, allowed)
  {
  }
}
