/** Bank-to-ledger matching: one greedy pass over the bank transactions that consumes
    ledger transactions, and turns every ambiguity into an exception. */
module Reconciliation {
  import opened Names
  import opened Sequences

  datatype BankRow = BankRow(id: Name, amount: Money, currency: Name, date: int,
                             evidence: seq<Name>, pending: bool, fee: Money)

  type BankTransaction = b: BankRow | b.fee >= 0.0
    witness BankRow(Name(""), 0.0, Name(""), 0, [], false, 0.0)

  datatype LedgerTransaction = LedgerTransaction(id: Name, amount: Money, currency: Name, date: int,
                                                 evidence: seq<Name>, accountCode: Name)

  datatype ConfigRow = ConfigRow(dateWindowDays: int, allowPending: bool, maxAggregateSize: int, feeTolerance: Money)

  type ReconciliationConfig = c: ConfigRow |
      c.dateWindowDays >= 0 && c.maxAggregateSize >= 2 && c.feeTolerance >= 0.0
    witness ConfigRow(3, false, 3, 0.0)

  datatype Status = Matched | ExcludedByPolicy | Exceptional

  datatype MatchKind = Exact | DateWindow | Fee | Aggregate

  datatype MatchGroup = MatchGroup(bankId: Name, ledgerIds: seq<Name>, kind: MatchKind,
                                   amount: Money, currency: Name, evidence: seq<Name>)

  datatype ControlCode = PendingTransaction | DuplicateCandidate | DuplicateAggregateCandidate
                       | UnmatchedBank | UnmatchedLedger

  datatype ExceptionStatus = Open | Ignored

  datatype ReconciliationException =
    ReconciliationException(code: ControlCode, sources: seq<Name>, evidence: seq<Name>,
                            amount: Money, currency: Name, status: ExceptionStatus)

  datatype Result = Result(matches: seq<MatchGroup>, exceptions: seq<ReconciliationException>,
                           statuses: map<Name, Status>)

  datatype ControlFailure = LedgerIdsNotUnique | BankIdsNotUnique

  datatype Outcome = Reconciled(result: Result) | Failed(reason: ControlFailure)

  // ---- evidence -----------------------------------------------------------------------

  /** Evidence ids in first-seen order, each once. */
  function Dedup(ids: seq<Name>): seq<Name> {
    if ids == [] then []
    else
      var last := ids[|ids| - 1];
      var r := Dedup(ids[..|ids| - 1]);
      if last in r then r else r + [last]
  }

  function LedgerEvidence(ledgers: seq<LedgerTransaction>): seq<Name> {
    if ledgers == [] then [] else ledgers[0].evidence + LedgerEvidence(ledgers[1..])
  }

  function Evidence(bank: BankTransaction, ledgers: seq<LedgerTransaction>): seq<Name> {
    Dedup(bank.evidence + LedgerEvidence(ledgers))
  }

  // ---- tests on one bank and one ledger transaction ------------------------------------

  predicate WithinWindow(left: int, right: int, days: int) {
    -days <= left - right <= days
  }

  predicate AmountMatches(bank: BankTransaction, ledger: LedgerTransaction, config: ReconciliationConfig) {
    || ledger.amount == bank.amount
    || (bank.fee > 0.0 && bank.fee <= config.feeTolerance && ledger.amount == bank.amount + bank.fee)
  }

  /** Free to be used for `bank`: not consumed, same currency, close enough in time. */
  predicate Eligible(bank: BankTransaction, ledger: LedgerTransaction, config: ReconciliationConfig, used: set<Name>) {
    && ledger.id !in used
    && ledger.currency == bank.currency
    && WithinWindow(ledger.date, bank.date, config.dateWindowDays)
  }

  function Remaining(bank: BankTransaction, ledgers: seq<LedgerTransaction>, config: ReconciliationConfig,
                     used: set<Name>): seq<LedgerTransaction>
  {
    if ledgers == [] then []
    else
      (if Eligible(bank, ledgers[0], config, used) then [ledgers[0]] else [])
      + Remaining(bank, ledgers[1..], config, used)
  }

  function Candidates(bank: BankTransaction, ledgers: seq<LedgerTransaction>, config: ReconciliationConfig,
                      used: set<Name>): seq<LedgerTransaction>
  {
    if ledgers == [] then []
    else
      (if Eligible(bank, ledgers[0], config, used) && AmountMatches(bank, ledgers[0], config) then [ledgers[0]] else [])
      + Candidates(bank, ledgers[1..], config, used)
  }

  // ---- groups of ledger transactions -----------------------------------------------------

  function Total(group: seq<LedgerTransaction>): Money {
    if group == [] then 0.0 else group[0].amount + Total(group[1..])
  }

  function Ids(ledgers: seq<LedgerTransaction>): (r: seq<Name>)
    ensures |r| == |ledgers|
    ensures forall i :: 0 <= i < |r| ==> r[i] == ledgers[i].id
  {
    seq(|ledgers|, i requires 0 <= i < |ledgers| => ledgers[i].id)
  }

  function IdSet(ledgers: seq<LedgerTransaction>): set<Name> {
    set l | l in ledgers :: l.id
  }

  function Fitting(groups: seq<seq<LedgerTransaction>>, amount: Money): seq<seq<LedgerTransaction>> {
    if groups == [] then []
    else (if Total(groups[0]) == amount then [groups[0]] else []) + Fitting(groups[1..], amount)
  }

  datatype Search = NoGroup | Unique(group: seq<LedgerTransaction>) | Ambiguous(first: seq<LedgerTransaction>)

  /** The size-by-size search, starting at `size`. */
  function SearchFrom(remaining: seq<LedgerTransaction>, amount: Money, size: nat, maxSize: int): Search
    decreases maxSize - size
  {
    if size > maxSize then NoGroup
    else
      var groups := Fitting(Combinations(remaining, size), amount);
      if |groups| == 1 then Unique(groups[0])
      else if |groups| > 1 then Ambiguous(groups[0])
      else SearchFrom(remaining, amount, size + 1, maxSize)
  }

  // ---- what the pass decides for one bank transaction --------------------------------------

  datatype Verdict =
    | Pending
    | Single(ledger: LedgerTransaction)
    | SeveralCandidates(candidates: seq<LedgerTransaction>)
    | Group(group: seq<LedgerTransaction>)
    | SeveralGroups(first: seq<LedgerTransaction>)
    | Unmatched

  function Judge(bank: BankTransaction, ledgers: seq<LedgerTransaction>, config: ReconciliationConfig,
                 used: set<Name>): Verdict
  {
    if bank.pending && !config.allowPending then Pending
    else
      var candidates := Candidates(bank, ledgers, config, used);
      if |candidates| == 1 then Single(candidates[0])
      else if |candidates| > 1 then SeveralCandidates(candidates)
      else
        match SearchFrom(Remaining(bank, ledgers, config, used), bank.amount, 2, config.maxAggregateSize)
        case Unique(group) => Group(group)
        case Ambiguous(first) => SeveralGroups(first)
        case NoGroup => Unmatched
  }

  function GroupOf(verdict: Verdict): seq<LedgerTransaction> {
    match verdict
    case Single(ledger) => [ledger]
    case Group(group) => group
    case _ => []
  }

  predicate IsMatch(verdict: Verdict) { verdict.Single? || verdict.Group? }

  function KindOf(bank: BankTransaction, verdict: Verdict): MatchKind
    requires IsMatch(verdict)
  {
    match verdict
    case Group(_) => Aggregate
    case Single(ledger) =>
      if ledger.amount != bank.amount then Fee else if ledger.date == bank.date then Exact else DateWindow
  }

  function MatchOf(bank: BankTransaction, verdict: Verdict): MatchGroup
    requires IsMatch(verdict)
  {
    MatchGroup(bank.id, Ids(GroupOf(verdict)), KindOf(bank, verdict), bank.amount, bank.currency,
               Evidence(bank, GroupOf(verdict)))
  }

  function ExceptionOf(bank: BankTransaction, verdict: Verdict): ReconciliationException
    requires !IsMatch(verdict)
  {
    var (code, sources, evidence) :=
      match verdict
      case SeveralCandidates(candidates) =>
        (DuplicateCandidate, [bank.id] + Ids(candidates), Evidence(bank, candidates))
      case SeveralGroups(first) => (DuplicateAggregateCandidate, [bank.id], Evidence(bank, first))
      case Pending => (PendingTransaction, [bank.id], bank.evidence)
      case _ => (UnmatchedBank, [bank.id], bank.evidence);
    ReconciliationException(code, sources, evidence, bank.amount, bank.currency, Open)
  }

  function StatusOf(verdict: Verdict): Status {
    if IsMatch(verdict) then Matched else if verdict.Pending? then ExcludedByPolicy else Exceptional
  }

  // ---- the whole pass ---------------------------------------------------------------------

  datatype Progress = Progress(used: set<Name>, matches: seq<MatchGroup>,
                               exceptions: seq<ReconciliationException>, statuses: map<Name, Status>)

  function Mark(taken: set<Name>): map<Name, Status> {
    map id | id in taken :: Matched
  }

  function Record(p: Progress, bank: BankTransaction, verdict: Verdict): Progress {
    var taken := IdSet(GroupOf(verdict));
    Progress(
      p.used + taken,
      if IsMatch(verdict) then p.matches + [MatchOf(bank, verdict)] else p.matches,
      if IsMatch(verdict) then p.exceptions else p.exceptions + [ExceptionOf(bank, verdict)],
      p.statuses[bank.id := StatusOf(verdict)] + Mark(taken))
  }

  /** The state of the pass after the first `n` bank transactions. */
  function After(banks: seq<BankTransaction>, ledgers: seq<LedgerTransaction>, config: ReconciliationConfig, n: nat): Progress
    requires n <= |banks|
  {
    if n == 0 then Progress({}, [], [], map[])
    else
      var p := After(banks, ledgers, config, n - 1);
      Record(p, banks[n - 1], Judge(banks[n - 1], ledgers, config, p.used))
  }

  function VerdictAt(banks: seq<BankTransaction>, ledgers: seq<LedgerTransaction>, config: ReconciliationConfig, i: nat): Verdict
    requires i < |banks|
  {
    Judge(banks[i], ledgers, config, After(banks, ledgers, config, i).used)
  }

  function LedgerException(ledger: LedgerTransaction): ReconciliationException {
    ReconciliationException(UnmatchedLedger, [ledger.id], ledger.evidence, ledger.amount, ledger.currency, Open)
  }

  predicate Unreported(p: Progress, ledger: LedgerTransaction) {
    ledger.id !in p.used && ledger.id !in p.statuses
  }

  /** The closing sweep over the first `n` ledger transactions. */
  function Sweep(p: Progress, ledgers: seq<LedgerTransaction>, n: nat): Progress
    requires n <= |ledgers|
  {
    if n == 0 then p
    else
      var q := Sweep(p, ledgers, n - 1);
      var ledger := ledgers[n - 1];
      if Unreported(q, ledger) then
        q.(exceptions := q.exceptions + [LedgerException(ledger)], statuses := q.statuses[ledger.id := Exceptional])
      else q
  }

  /** No bank among the first `n` had an id that already carried a status,
      as an earlier bank or as a consumed ledger transaction. */
  ghost predicate ClashFree(banks: seq<BankTransaction>, ledgers: seq<LedgerTransaction>, config: ReconciliationConfig, n: nat)
    requires n <= |banks|
  {
    n == 0 || (ClashFree(banks, ledgers, config, n - 1)
               && banks[n - 1].id !in After(banks, ledgers, config, n - 1).statuses)
  }

  lemma {:induction false} ClashStays(banks: seq<BankTransaction>, ledgers: seq<LedgerTransaction>, config: ReconciliationConfig, n: nat, m: nat)
    requires n <= m <= |banks| && ClashFree(banks, ledgers, config, m)
    ensures ClashFree(banks, ledgers, config, n)
    decreases m
  {
    hide After;
    if n < m { ClashStays(banks, ledgers, config, n, m - 1); }
  }

  ghost function Run(banks: seq<BankTransaction>, ledgers: seq<LedgerTransaction>, config: ReconciliationConfig): Outcome {
    if !Distinct(Ids(ledgers)) then Failed(LedgerIdsNotUnique)
    else if !ClashFree(banks, ledgers, config, |banks|) then Failed(BankIdsNotUnique)
    else
      var p := Sweep(After(banks, ledgers, config, |banks|), ledgers, |ledgers|);
      Reconciled(Result(p.matches, p.exceptions, p.statuses))
  }

  // ---- the pass as the program runs it --------------------------------------------------------

  method FindAggregate(remaining: seq<LedgerTransaction>, amount: Money, maxSize: int) returns (r: Search)
    ensures r == SearchFrom(remaining, amount, 2, maxSize)
  {
    var size := 2;
    while size <= maxSize
      invariant 2 <= size
      invariant SearchFrom(remaining, amount, 2, maxSize) == SearchFrom(remaining, amount, size, maxSize)
    {
      var groups := Fitting(Combinations(remaining, size), amount);
      if |groups| == 1 {
        return Unique(groups[0]);
      }
      if |groups| > 1 {
        return Ambiguous(groups[0]);
      }
      size := size + 1;
    }
    return NoGroup;
  }

  /** Indexing the rows by id loses one exactly when two share an id. */
  method AreUnique(ids: seq<Name>) returns (unique: bool)
    ensures unique == Distinct(ids)
  {
    DistinctAsSet(ids);
    unique := |set id | id in ids| == |ids|;
  }

  /** One turn of the loop over the bank transactions. */
  method MatchBank(bank: BankTransaction, ledgers: seq<LedgerTransaction>, config: ReconciliationConfig, p: Progress)
    returns (q: Progress)
    ensures q == Record(p, bank, Judge(bank, ledgers, config, p.used))
  {
    hide Candidates, Remaining, SearchFrom, Evidence, Total;
    var used, matches, exceptions, statuses := p.used, p.matches, p.exceptions, p.statuses;
    if bank.pending && !config.allowPending {
      statuses := statuses[bank.id := ExcludedByPolicy];
      exceptions := exceptions
        + [ReconciliationException(PendingTransaction, [bank.id], bank.evidence, bank.amount, bank.currency, Open)];
    } else {
      var candidates := Candidates(bank, ledgers, config, used);
      if |candidates| == 1 {
        var ledger := candidates[0];
        assert Ids([ledger]) == [ledger.id] && IdSet([ledger]) == {ledger.id};
        used := used + {ledger.id};
        statuses := statuses[bank.id := Matched][ledger.id := Matched];
        assert statuses == p.statuses[bank.id := Matched] + Mark({ledger.id});
        var kind := if ledger.amount != bank.amount then Fee else if ledger.date == bank.date then Exact else DateWindow;
        matches := matches
          + [MatchGroup(bank.id, [ledger.id], kind, bank.amount, bank.currency, Evidence(bank, [ledger]))];
      } else if |candidates| > 1 {
        statuses := statuses[bank.id := Exceptional];
        exceptions := exceptions
          + [ReconciliationException(DuplicateCandidate, [bank.id] + Ids(candidates), Evidence(bank, candidates),
                                     bank.amount, bank.currency, Open)];
      } else {
        var search := FindAggregate(Remaining(bank, ledgers, config, used), bank.amount, config.maxAggregateSize);
        match search {
          case Ambiguous(first) =>
            statuses := statuses[bank.id := Exceptional];
            exceptions := exceptions
              + [ReconciliationException(DuplicateAggregateCandidate, [bank.id], Evidence(bank, first),
                                         bank.amount, bank.currency, Open)];
          case Unique(group) =>
            used := used + IdSet(group);
            statuses := statuses[bank.id := Matched] + Mark(IdSet(group));
            matches := matches
              + [MatchGroup(bank.id, Ids(group), Aggregate, bank.amount, bank.currency, Evidence(bank, group))];
          case NoGroup =>
            statuses := statuses[bank.id := Exceptional];
            exceptions := exceptions
              + [ReconciliationException(UnmatchedBank, [bank.id], bank.evidence, bank.amount, bank.currency, Open)];
        }
      }
    }
    q := Progress(used, matches, exceptions, statuses);
    ghost var verdict := Judge(bank, ledgers, config, p.used);
    if !IsMatch(verdict) {
      assert IdSet(GroupOf(verdict)) == {} && p.statuses[bank.id := StatusOf(verdict)] + Mark({}) == statuses;
    }
  }

  lemma AfterStep(banks: seq<BankTransaction>, ledgers: seq<LedgerTransaction>, config: ReconciliationConfig, n: nat)
    requires 0 < n <= |banks|
    ensures After(banks, ledgers, config, n)
         == Record(After(banks, ledgers, config, n - 1), banks[n - 1], VerdictAt(banks, ledgers, config, n - 1))
  {
    hide Judge, Record;
  }

  lemma AfterNone(banks: seq<BankTransaction>, ledgers: seq<LedgerTransaction>, config: ReconciliationConfig)
    ensures After(banks, ledgers, config, 0) == Progress({}, [], [], map[])
  {
  }

  lemma ClashNone(banks: seq<BankTransaction>, ledgers: seq<LedgerTransaction>, config: ReconciliationConfig)
    ensures ClashFree(banks, ledgers, config, 0)
  {
  }

  lemma ClashStep(banks: seq<BankTransaction>, ledgers: seq<LedgerTransaction>, config: ReconciliationConfig, n: nat)
    requires 0 < n <= |banks|
    ensures ClashFree(banks, ledgers, config, n)
       <==> ClashFree(banks, ledgers, config, n - 1) && banks[n - 1].id !in After(banks, ledgers, config, n - 1).statuses
  {
    hide After;
  }

  lemma SweepNone(p: Progress, ledgers: seq<LedgerTransaction>)
    ensures Sweep(p, ledgers, 0) == p
  {
  }

  lemma SweepStep(p: Progress, ledgers: seq<LedgerTransaction>, n: nat)
    requires 0 < n <= |ledgers|
    ensures var q, ledger := Sweep(p, ledgers, n - 1), ledgers[n - 1];
            Sweep(p, ledgers, n) == if Unreported(q, ledger) then
                q.(exceptions := q.exceptions + [LedgerException(ledger)], statuses := q.statuses[ledger.id := Exceptional])
              else q
  {
    hide LedgerException, Unreported;
  }

  lemma RunParts(banks: seq<BankTransaction>, ledgers: seq<LedgerTransaction>, config: ReconciliationConfig)
    ensures !Distinct(Ids(ledgers)) ==> Run(banks, ledgers, config) == Failed(LedgerIdsNotUnique)
    ensures Distinct(Ids(ledgers)) && !ClashFree(banks, ledgers, config, |banks|) ==>
              Run(banks, ledgers, config) == Failed(BankIdsNotUnique)
    ensures Distinct(Ids(ledgers)) && ClashFree(banks, ledgers, config, |banks|) ==>
              var p := Sweep(After(banks, ledgers, config, |banks|), ledgers, |ledgers|);
              Run(banks, ledgers, config) == Reconciled(Result(p.matches, p.exceptions, p.statuses))
  {
    hide After, Sweep, ClashFree, Distinct, Ids;
  }

  method Reconcile(banks: seq<BankTransaction>, ledgers: seq<LedgerTransaction>, config: ReconciliationConfig)
    returns (r: Outcome)
    ensures r == Run(banks, ledgers, config)
  {
    hide Run, After, Sweep, ClashFree, Judge, Record, Distinct, LedgerException;
    RunParts(banks, ledgers, config);
    var unique := AreUnique(Ids(ledgers));
    if !unique {
      return Failed(LedgerIdsNotUnique);
    }
    var p := Progress({}, [], [], map[]);
    AfterNone(banks, ledgers, config);
    ClashNone(banks, ledgers, config);
    for n := 0 to |banks|
      invariant p == After(banks, ledgers, config, n)
      invariant ClashFree(banks, ledgers, config, n)
    {
      AfterStep(banks, ledgers, config, n + 1);
      ClashStep(banks, ledgers, config, n + 1);
      if banks[n].id in p.statuses {
        if ClashFree(banks, ledgers, config, |banks|) { ClashStays(banks, ledgers, config, n + 1, |banks|); }
        return Failed(BankIdsNotUnique);
      }
      p := MatchBank(banks[n], ledgers, config, p);
    }
    ghost var matched := p;
    SweepNone(matched, ledgers);
    for k := 0 to |ledgers|
      invariant p == Sweep(matched, ledgers, k)
    {
      SweepStep(matched, ledgers, k + 1);
      var ledger := ledgers[k];
      if ledger.id !in p.used && ledger.id !in p.statuses {
        p := p.(statuses := p.statuses[ledger.id := Exceptional],
                exceptions := p.exceptions + [LedgerException(ledger)]);
      }
    }
    return Reconciled(Result(p.matches, p.exceptions, p.statuses));
  }

  /** Comparing a count of keys with a count of rows decides uniqueness. */
  lemma {:induction false} DistinctAsSet(s: seq<Name>)
    ensures |set x | x in s| == |s| <==> Distinct(s)
    ensures |set x | x in s| <= |s|
  {
    if s != [] {
      var rest, last := s[..|s| - 1], s[|s| - 1];
      DistinctAsSet(rest);
      assert s == rest + [last];
      assert (set x | x in s) == (set x | x in rest) + {last};
    }
  }

}
