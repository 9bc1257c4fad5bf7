/** Creating a Xero DRAFT journal at most once: mark, search, create, read back, against a
    provider whose answers may be lost and a worker that may die between any two steps. */
module DraftActions {
  import opened Names

  datatype Line = Line(account: Name, debit: Money, credit: Money)

  /** What a proposal hash covers. Hashes are taken to be injective, so the content stands for its hash. */
  datatype Content = Content(date: string, narration: Name, lines: seq<Line>)

  /** The idempotency key of a run's proposal; the narration marker carries the same facts. */
  datatype Key = Key(run: Name, content: Content)

  datatype JournalStatus = Draft | OtherStatus

  /** A manual journal as the provider stores it: one signed amount per line. */
  datatype Journal = Journal(id: int, marker: Option<Key>, status: JournalStatus, narration: Name, date: string,
                             amounts: seq<(Name, Money)>)

  /** A journal as the client reads it back. */
  datatype Record = Record(id: int, marker: Option<Key>, status: JournalStatus, narration: Name, date: string, lines: seq<Line>)

  // ---- the signed line encoding ------------------------------------------------------------------

  function EncodeLine(l: Line): (Name, Money) {
    (l.account, if l.debit > 0.0 then l.debit else -l.credit)
  }

  function DecodeLine(a: (Name, Money)): Line {
    Line(a.0, if a.1 > 0.0 then a.1 else 0.0, if a.1 < 0.0 then -a.1 else 0.0)
  }

  function EncodeLines(lines: seq<Line>): seq<(Name, Money)> {
    if lines == [] then [] else EncodeLines(lines[..|lines| - 1]) + [EncodeLine(lines[|lines| - 1])]
  }

  function DecodeLines(amounts: seq<(Name, Money)>): seq<Line> {
    if amounts == [] then [] else DecodeLines(amounts[..|amounts| - 1]) + [DecodeLine(amounts[|amounts| - 1])]
  }

  method EncodeRequest(lines: seq<Line>) returns (amounts: seq<(Name, Money)>)
    ensures amounts == EncodeLines(lines)
  {
    amounts := [];
    for n := 0 to |lines|
      invariant amounts == EncodeLines(lines[..n])
    {
      assert lines[..n + 1][..n] == lines[..n];
      var amount := if lines[n].debit > 0.0 then lines[n].debit else -lines[n].credit;
      amounts := amounts + [(lines[n].account, amount)];
    }
    assert lines[..|lines|] == lines;
  }

  method DecodeResponse(amounts: seq<(Name, Money)>) returns (lines: seq<Line>)
    ensures lines == DecodeLines(amounts)
  {
    lines := [];
    for n := 0 to |amounts|
      invariant lines == DecodeLines(amounts[..n])
    {
      assert amounts[..n + 1][..n] == amounts[..n];
      var amount := amounts[n].1;
      lines := lines + [Line(amounts[n].0, if amount > 0.0 then amount else 0.0, if amount < 0.0 then -amount else 0.0)];
    }
    assert amounts[..|amounts|] == amounts;
  }

  function FirstTen(date: string): string {
    if |date| <= 10 then date else date[..10]
  }

  function Read(j: Journal): Record {
    Record(j.id, j.marker, j.status, j.narration, FirstTen(j.date), DecodeLines(j.amounts))
  }

  function Request(key: Key, id: int): Journal {
    Journal(id, Some(key), Draft, key.content.narration, key.content.date, EncodeLines(key.content.lines))
  }

  predicate Matches(key: Key, r: Record) {
    && r.status == Draft && r.marker == Some(key) && r.narration == key.content.narration
    && r.date == key.content.date && r.lines == key.content.lines
  }

  // ---- the database and the provider ---------------------------------------------------------------

  datatype ActionStatus = Prepared | Started | SucceededAction | FailedAction | OutcomeUnknown

  datatype Action = Action(status: ActionStatus, journalId: Option<int>)

  datatype RunPhase = Applying | ActionFailedPhase | ApprovedPhase | CancelledPhase

  datatype World = World(actions: map<Key, Action>, phases: map<Name, RunPhase>, journals: seq<Journal>)

  function Ensure(w: World, key: Key): World {
    if key in w.actions then w else w.(actions := w.actions[key := Action(Prepared, None)])
  }

  predicate AllSucceeded(actions: map<Key, Action>, run: Name) {
    forall k :: k in actions && k.run == run ==> actions[k].status == SucceededAction
  }

  function Phase(w: World, run: Name): RunPhase {
    if run in w.phases then w.phases[run] else Applying
  }

  function Advance(w: World, run: Name, phase: RunPhase): World {
    if Phase(w, run) == ApprovedPhase || Phase(w, run) == CancelledPhase then w
    else w.(phases := w.phases[run := phase])
  }

  /** Record a status, and move the run as that status requires. */
  function Mark(w: World, key: Key, status: ActionStatus, id: Option<int>): World {
    var known := if key in w.actions then w.actions[key].journalId else None;
    var v := w.(actions := w.actions[key := Action(status, if id.Some? then id else known)]);
    match status
    case FailedAction => Advance(v, key.run, ActionFailedPhase)
    case OutcomeUnknown => Advance(v, key.run, ActionFailedPhase)
    case SucceededAction => if AllSucceeded(v.actions, key.run) then Advance(v, key.run, ApprovedPhase) else v
    case _ => v
  }

  function Found(journals: seq<Journal>, key: Key): seq<Journal> {
    if journals == [] then []
    else
      var last := journals[|journals| - 1];
      Found(journals[..|journals| - 1], key) + if last.marker == Some(key) then [last] else []
  }

  function Create(w: World, key: Key): World {
    w.(journals := w.journals + [Request(key, |w.journals|)])
  }

  // ---- one execution ---------------------------------------------------------------------------------

  /** A search answers with what the provider holds, answers without it, or does not answer. */
  datatype SearchReply = Exact | Stale | NoAnswer

  /** A create request takes effect and answers, takes effect unheard, or has no effect. */
  datatype CreateReply = Created | CreatedUnheard | NotCreated

  /** How the outside behaves during one execution. The worker may die at six points: before
      the action row (0), before its start (1), before the create request (2), before the
      read-back (3), before the second search (4), before the final status (5). It dies at the
      first point it reaches whose number is at least `steps`. */
  datatype Script = Script(steps: nat, search: SearchReply, create: CreateReply, readBack: bool, searchAgain: SearchReply)

  datatype Outcome = Dead | AlreadyDone | Done | BadProposal | UnknownBlocked | FailedBlocked

  function Answer(w: World, key: Key, reply: SearchReply): seq<Journal> {
    if reply.Exact? then Found(w.journals, key) else []
  }

  predicate Permitted(key: Key, codes: set<Name>) {
    key.content.lines != [] && forall l :: l in key.content.lines ==> l.account in codes
  }

  function GiveUp(w: World, key: Key, s: Script, status: ActionStatus, outcome: Outcome): (World, Outcome) {
    if s.steps <= 5 then (w, Dead) else (Mark(w, key, status, None), outcome)
  }

  function Conclude(w: World, key: Key, s: Script, record: Record): (World, Outcome) {
    if !Matches(key, record) then GiveUp(w, key, s, FailedAction, FailedBlocked)
    else if s.steps <= 5 then (w, Dead)
    else (Mark(w, key, SucceededAction, Some(record.id)), Done)
  }

  /** The handler of a failed create or read-back. */
  function Recover(w: World, key: Key, s: Script): (World, Outcome) {
    if s.steps <= 4 then (w, Dead)
    else
      var after := Answer(w, key, s.searchAgain);
      if s.searchAgain.NoAnswer? || |after| != 1 then GiveUp(w, key, s, OutcomeUnknown, UnknownBlocked)
      else Conclude(w, key, s, Read(after[0]))
  }

  function ReadBack(w: World, key: Key, s: Script, j: Journal): (World, Outcome) {
    if s.steps <= 3 then (w, Dead)
    else if !s.readBack then Recover(w, key, s)
    else Conclude(w, key, s, Read(j))
  }

  function CreateThenRead(w: World, key: Key, s: Script): (World, Outcome) {
    if s.steps <= 2 then (w, Dead)
    else
      match s.create
      case NotCreated => Recover(w, key, s)
      case CreatedUnheard => Recover(Create(w, key), key, s)
      case Created =>
        var v := Create(w, key);
        ReadBack(v, key, s, v.journals[|w.journals|])
  }

  function Execute(w: World, key: Key, codes: set<Name>, s: Script): (World, Outcome) {
    if !Permitted(key, codes) then (w, BadProposal)
    else if s.steps == 0 then (w, Dead)
    else
      var v := Ensure(w, key);
      if v.actions[key].status == SucceededAction then (v, AlreadyDone)
      else if s.steps <= 1 then (v, Dead)
      else
        var u := Mark(v, key, Started, None);
        if s.search.NoAnswer? then GiveUp(u, key, s, OutcomeUnknown, UnknownBlocked)
        else
          var found := Answer(u, key, s.search);
          if |found| > 1 then GiveUp(u, key, s, FailedAction, FailedBlocked)
          else if |found| == 1 then ReadBack(u, key, s, found[0])
          else CreateThenRead(u, key, s)
  }

  class XeroDraftActionExecutor {
    var actions: map<Key, Action>
    var phases: map<Name, RunPhase>
    var journals: seq<Journal>

    ghost function State(): World
      reads this
    {
      World(actions, phases, journals)
    }

    /** The actions of the run that have not succeeded. */
    method CountUnfinished(run: Name) returns (n: nat)
      ensures n == 0 <==> AllSucceeded(actions, run)
    {
      var unfinished := set k | k in actions && k.run == run && actions[k].status != SucceededAction;
      n := |unfinished|;
      if AllSucceeded(actions, run) { assert unfinished == {}; }
      assert forall k :: k in actions && k.run == run && actions[k].status != SucceededAction ==> k in unfinished;
    }

    /** Record a status, keep the journal id that is known, and move the run as the status
        requires: a failure sends it to recovery, the last success approves it, and an approved
        or cancelled run is left alone. An action that was never recorded is refused. */
    method UpdateAction(key: Key, status: ActionStatus, id: Option<int>) returns (found: bool)
      modifies this`actions, this`phases
      ensures found <==> key in old(actions)
      ensures State() == if found then Mark(old(State()), key, status, id) else old(State())
      ensures actions.Keys == old(actions).Keys && forall k :: k in actions && k != key ==> actions[k] == old(actions)[k]
      ensures found ==> actions[key].status == status && actions[key].journalId == if id.Some? then id else old(actions)[key].journalId
      ensures found ==>
                var closed := key.run in old(phases) && old(phases)[key.run] in {ApprovedPhase, CancelledPhase};
                var last := forall k :: k in actions && k.run == key.run ==> actions[k].status == SucceededAction;
                phases == if !closed && status in {FailedAction, OutcomeUnknown} then old(phases)[key.run := ActionFailedPhase]
                          else if !closed && status == SucceededAction && last then old(phases)[key.run := ApprovedPhase]
                          else old(phases)
    {
      if key !in actions {
        return false;
      }
      var journalId := if id.Some? then id else actions[key].journalId;
      actions := actions[key := Action(status, journalId)];
      var phase := if key.run in phases then phases[key.run] else Applying;
      var open := phase != ApprovedPhase && phase != CancelledPhase;
      if status == FailedAction || status == OutcomeUnknown {
        if open {
          phases := phases[key.run := ActionFailedPhase];
        }
      } else if status == SucceededAction {
        var unfinished := CountUnfinished(key.run);
        if unfinished == 0 && open {
          phases := phases[key.run := ApprovedPhase];
        }
      }
      return true;
    }

    /** One run of the executor on one proposal, cut short after `s.steps` steps. */
    method ExecuteProposal(key: Key, codes: set<Name>, s: Script) returns (outcome: Outcome)
      modifies this
      ensures (State(), outcome) == Execute(old(State()), key, codes, s)
    {
      hide Mark, Matches, Read, Request, Permitted, Found;
      if !Permitted(key, codes) {
        return BadProposal;
      }
      if s.steps == 0 {
        return Dead;
      }
      if key !in actions {
        actions := actions[key := Action(Prepared, None)];
      }
      if actions[key].status == SucceededAction {
        return AlreadyDone;
      }
      if s.steps <= 1 {
        return Dead;
      }
      var updated := UpdateAction(key, Started, None);
      if s.search.NoAnswer? {
        if s.steps > 5 {
          var updated := UpdateAction(key, OutcomeUnknown, None);
          return UnknownBlocked;
        }
        return Dead;
      }
      var found := if s.search.Exact? then Found(journals, key) else [];
      if |found| > 1 {
        if s.steps > 5 {
          var updated := UpdateAction(key, FailedAction, None);
          return FailedBlocked;
        }
        return Dead;
      }
      var readBack: Option<Journal> := None;
      if |found| == 1 {
        if s.steps <= 3 {
          return Dead;
        }
        if s.readBack { readBack := Some(found[0]); }
      } else {
        if s.steps <= 2 {
          return Dead;
        }
        if !s.create.NotCreated? {
          journals := journals + [Request(key, |journals|)];
        }
        if s.create.Created? {
          if s.steps <= 3 {
            return Dead;
          }
          if s.readBack { readBack := Some(journals[|journals| - 1]); }
        }
      }
      if readBack.None? {
        outcome := RecoverBySearch(key, s);
      } else {
        outcome := ConcludeWith(key, s, readBack.value);
      }
    }

    /** The handler of a failed create or read-back. */
    method RecoverBySearch(key: Key, s: Script) returns (outcome: Outcome)
      requires key in actions
      modifies this
      ensures (State(), outcome) == Recover(old(State()), key, s)
    {
      hide Mark, Matches, Read, Found;
      if s.steps <= 4 {
        return Dead;
      }
      var after := if s.searchAgain.Exact? then Found(journals, key) else [];
      if s.searchAgain.NoAnswer? || |after| != 1 {
        if s.steps > 5 {
          var updated := UpdateAction(key, OutcomeUnknown, None);
          return UnknownBlocked;
        }
        return Dead;
      }
      outcome := ConcludeWith(key, s, after[0]);
    }

    /** Compare what was read back with what was approved, and record the result. */
    method ConcludeWith(key: Key, s: Script, j: Journal) returns (outcome: Outcome)
      requires key in actions
      modifies this
      ensures (State(), outcome) == Conclude(old(State()), key, s, Read(j))
    {
      hide Mark, Matches;
      if s.steps <= 5 {
        return Dead;
      }
      if !Matches(key, Read(j)) {
        var updated := UpdateAction(key, FailedAction, None);
        return FailedBlocked;
      }
      var updated := UpdateAction(key, SucceededAction, Some(j.id));
      return Done;
    }
  }
}
