/** From frozen source facts to controls: projecting bank and ledger transactions, running
    the reconciliation, deciding the cash control, and proposing adjustments. */
module CloseControls {
  import opened Names
  import opened Journals
  import opened Reconciliation

  datatype BankMapping = BankMapping(account: Name, code: Name)

  /** What a type or payment-type text says about the direction of cash. */
  datatype Direction = Outflow | Inflow | Undirected

  datatype ReportKind = TrialBalanceReport | ProfitAndLossReport | BalanceSheetReport

  datatype Fact =
    | PlaidFact(record: Name, account: Name, removed: bool, amount: Money, fee: Money, pending: bool,
                currency: Name, date: int, version: Name)
    | XeroCashFact(record: Name, voided: bool, amount: Money, transactionType: Direction, paymentType: Direction,
                   code: Option<Name>, currency: Name, date: int, version: Name)
    | ReportFact(kind: ReportKind)
    | OtherFact

  datatype Configuration =
    Configuration(mappings: seq<BankMapping>, dateWindowDays: int, maxAggregateSize: int, feeTolerance: Money,
                  excludePending: bool, materiality: Money, offset: Option<Name>, permitted: set<Name>)

  datatype Period = Period(start: int, end: int)

  datatype Refusal = BadMapping | BadRules | BadPeriod | UnmappedAccount | NegativeFee | NotUnique

  datatype Projection<+T> = Projected(value: T) | Refused(reason: Refusal)

  // ---- projecting the facts ------------------------------------------------------------------------

  predicate BadRow(row: BankMapping, m: map<Name, Name>) {
    row.account.text == "" || row.code.text == "" || row.account in m
  }

  function MappingOf(rows: seq<BankMapping>): Projection<map<Name, Name>> {
    if rows == [] then Projected(map[])
    else
      var last := rows[|rows| - 1];
      match MappingOf(rows[..|rows| - 1])
      case Refused(reason) => Refused(reason)
      case Projected(m) => if BadRow(last, m) then Refused(BadMapping) else Projected(m[last.account := last.code])
  }

  predicate InPeriod(date: int, period: Option<Period>) {
    period.Some? ==> period.value.start <= date <= period.value.end
  }

  function PlaidId(record: Name): Name { Name("plaid:" + record.text) }

  function XeroId(record: Name): Name { Name("xero:" + record.text) }

  predicate IsPlaidId(id: Name) { |id.text| >= 6 && id.text[..6] == "plaid:" }

  function BankOf(f: Fact): BankTransaction
    requires f.PlaidFact? && f.fee >= 0.0
  {
    BankRow(PlaidId(f.record), f.amount, f.currency, f.date, [f.version], f.pending, f.fee)
  }

  function Banks(facts: seq<Fact>, mapping: map<Name, Name>, period: Option<Period>): Projection<seq<BankTransaction>> {
    if facts == [] then Projected([])
    else
      var f := facts[|facts| - 1];
      match Banks(facts[..|facts| - 1], mapping, period)
      case Refused(reason) => Refused(reason)
      case Projected(banks) =>
        if !f.PlaidFact? || f.removed then Projected(banks)
        else if f.account !in mapping then Refused(UnmappedAccount)
        else if !InPeriod(f.date, period) then Projected(banks)
        else if f.fee < 0.0 then Refused(NegativeFee)
        else Projected(banks + [BankOf(f)])
  }

  /** Xero's unsigned amount in the bank's convention, where an outflow is positive. */
  function CashAmount(f: Fact): Option<Money>
    requires f.XeroCashFact?
  {
    var amount := if f.amount < 0.0 then -f.amount else f.amount;
    match f.transactionType
    case Outflow => Some(amount)
    case Inflow => Some(-amount)
    case Undirected =>
      match f.paymentType
      case Outflow => Some(amount)
      case Inflow => Some(-amount)
      case Undirected => None
  }

  const UNMAPPED := Name("unmapped")

  predicate Ledgered(f: Fact, period: Option<Period>) {
    f.XeroCashFact? && !f.voided && CashAmount(f).Some? && InPeriod(f.date, period)
  }

  function LedgerOf(f: Fact): LedgerTransaction
    requires f.XeroCashFact? && CashAmount(f).Some?
  {
    LedgerTransaction(XeroId(f.record), CashAmount(f).value, f.currency, f.date, [f.version],
                      if f.code.Some? then f.code.value else UNMAPPED)
  }

  function Ledgers(facts: seq<Fact>, period: Option<Period>): seq<LedgerTransaction> {
    if facts == [] then []
    else
      var f := facts[|facts| - 1];
      Ledgers(facts[..|facts| - 1], period) + if Ledgered(f, period) then [LedgerOf(f)] else []
  }

  method MappingByPlaidAccount(rows: seq<BankMapping>) returns (r: Projection<map<Name, Name>>)
    ensures r == MappingOf(rows)
  {
    var m := map[];
    for n := 0 to |rows|
      invariant MappingOf(rows[..n]) == Projected(m)
    {
      assert rows[..n + 1][..n] == rows[..n];
      if rows[n].account.text == "" || rows[n].code.text == "" || rows[n].account in m {
        MappingStaysRefused(rows, n + 1);
        return Refused(BadMapping);
      }
      m := m[rows[n].account := rows[n].code];
    }
    assert rows[..|rows|] == rows;
    r := Projected(m);
  }

  lemma {:induction false} MappingStaysRefused(rows: seq<BankMapping>, n: nat)
    requires n <= |rows| && MappingOf(rows[..n]).Refused?
    ensures MappingOf(rows) == MappingOf(rows[..n])
  {
    if n == |rows| {
      assert rows[..n] == rows;
    } else {
      assert rows[..|rows| - 1][..n] == rows[..n];
      MappingStaysRefused(rows[..|rows| - 1], n);
    }
  }

  method BankTransactions(facts: seq<Fact>, mapping: map<Name, Name>, period: Option<Period>)
    returns (r: Projection<seq<BankTransaction>>)
    ensures r == Banks(facts, mapping, period)
  {
    var banks: seq<BankTransaction> := [];
    for n := 0 to |facts|
      invariant Banks(facts[..n], mapping, period) == Projected(banks)
    {
      assert facts[..n + 1][..n] == facts[..n];
      var f := facts[n];
      if f.PlaidFact? && !f.removed {
        if f.account !in mapping {
          BanksStayRefused(facts, mapping, period, n + 1);
          return Refused(UnmappedAccount);
        }
        if InPeriod(f.date, period) {
          if f.fee < 0.0 {
            BanksStayRefused(facts, mapping, period, n + 1);
            return Refused(NegativeFee);
          }
          banks := banks + [BankOf(f)];
        }
      }
    }
    assert facts[..|facts|] == facts;
    r := Projected(banks);
  }

  lemma {:induction false} BanksStayRefused(facts: seq<Fact>, mapping: map<Name, Name>, period: Option<Period>, n: nat)
    requires n <= |facts| && Banks(facts[..n], mapping, period).Refused?
    ensures Banks(facts, mapping, period) == Banks(facts[..n], mapping, period)
  {
    if n == |facts| {
      assert facts[..n] == facts;
    } else {
      assert facts[..|facts| - 1][..n] == facts[..n];
      BanksStayRefused(facts[..|facts| - 1], mapping, period, n);
    }
  }

  method LedgerTransactions(facts: seq<Fact>, period: Option<Period>) returns (r: seq<LedgerTransaction>)
    ensures r == Ledgers(facts, period)
  {
    r := [];
    for n := 0 to |facts|
      invariant r == Ledgers(facts[..n], period)
    {
      assert facts[..n + 1][..n] == facts[..n];
      var f := facts[n];
      if f.XeroCashFact? && !f.voided {
        var amount := CashAmount(f);
        if amount.Some? && InPeriod(f.date, period) {
          r := r + [LedgerOf(f)];
        }
      }
    }
    assert facts[..|facts|] == facts;
  }

  // ---- the cash control -------------------------------------------------------------------------------

  function Normalised(e: ReconciliationException, excludePending: bool): ReconciliationException {
    if excludePending && e.code == PendingTransaction then e.(status := Ignored) else e
  }

  function NormalisedAll(es: seq<ReconciliationException>, excludePending: bool): seq<ReconciliationException> {
    seq(|es|, i requires 0 <= i < |es| => Normalised(es[i], excludePending))
  }

  function Abs(m: Money): Money { if m < 0.0 then -m else m }

  predicate Material(e: ReconciliationException, threshold: Money) {
    e.status == Open && Abs(e.amount) > threshold
  }

  function Materials(es: seq<ReconciliationException>, threshold: Money): seq<ReconciliationException> {
    if es == [] then []
    else
      var last := es[|es| - 1];
      Materials(es[..|es| - 1], threshold) + if Material(last, threshold) then [last] else []
  }

  function BankSum(banks: seq<BankTransaction>): Money {
    if banks == [] then 0.0 else BankSum(banks[..|banks| - 1]) + banks[|banks| - 1].amount
  }

  function CashSum(ledgers: seq<LedgerTransaction>, cashCodes: set<Name>): Money {
    if ledgers == [] then 0.0
    else (if ledgers[0].accountCode in cashCodes then ledgers[0].amount else 0.0) + CashSum(ledgers[1..], cashCodes)
  }

  predicate AllReports(facts: seq<Fact>) {
    ReportFact(TrialBalanceReport) in facts && ReportFact(ProfitAndLossReport) in facts && ReportFact(BalanceSheetReport) in facts
  }

  datatype Control = Passed | Exception | Unavailable

  function ControlOf(facts: seq<Fact>, banks: seq<BankTransaction>, ledgers: seq<LedgerTransaction>, cashCodes: set<Name>,
                     material: nat): Control
  {
    if !AllReports(facts) then Unavailable
    else if BankSum(banks) == CashSum(ledgers, cashCodes) && material == 0 then Passed
    else Exception
  }

  // ---- proposals ------------------------------------------------------------------------------------------

  function FirstPlaid(ids: seq<Name>): Option<Name> {
    if ids == [] then None else if IsPlaidId(ids[0]) then Some(ids[0]) else FirstPlaid(ids[1..])
  }

  function BankById(banks: seq<BankTransaction>, id: Name): Option<BankTransaction> {
    if banks == [] then None
    else if banks[|banks| - 1].id == id then Some(banks[|banks| - 1])
    else BankById(banks[..|banks| - 1], id)
  }

  /** The account on the last live Plaid fact with that transaction id, in or out of the period. */
  function AccountById(facts: seq<Fact>, id: Name): Option<Name> {
    if facts == [] then None
    else
      var f := facts[|facts| - 1];
      if f.PlaidFact? && !f.removed && PlaidId(f.record) == id then Some(f.account)
      else AccountById(facts[..|facts| - 1], id)
  }

  function CodeFor(facts: seq<Fact>, mapping: map<Name, Name>, bank: BankTransaction): Option<Name> {
    var account := AccountById(facts, bank.id);
    if account.Some? && account.value in mapping then Some(mapping[account.value]) else None
  }

  function AdjustmentLines(offset: Name, bankCode: Name, amount: Money, evidence: seq<Name>): seq<JournalLine> {
    if amount > 0.0 then [JournalLine(offset, amount, 0.0, evidence), JournalLine(bankCode, 0.0, amount, evidence)]
    else [JournalLine(bankCode, -amount, 0.0, evidence), JournalLine(offset, 0.0, -amount, evidence)]
  }

  function ProposalFor(e: ReconciliationException, facts: seq<Fact>, banks: seq<BankTransaction>, mapping: map<Name, Name>,
                       offset: Option<Name>, permitted: set<Name>): Option<JournalProposal>
  {
    if e.code != UnmatchedBank && e.code != UnmatchedLedger then None
    else if offset.None? || offset.value !in permitted then None
    else
      var id := FirstPlaid(e.sources);
      var bank := if id.Some? then BankById(banks, id.value) else None;
      if bank.None? then None
      else
        var code := CodeFor(facts, mapping, bank.value);
        if code.None? || code.value !in permitted || bank.value.amount == 0.0 then None
        else Some(JournalProposal(bank.value.id, bank.value.date,
                                  AdjustmentLines(offset.value, code.value, bank.value.amount, e.evidence)))
  }

  function Proposals(es: seq<ReconciliationException>, facts: seq<Fact>, banks: seq<BankTransaction>, mapping: map<Name, Name>,
                     offset: Option<Name>, permitted: set<Name>): seq<JournalProposal>
  {
    if es == [] then []
    else
      var p := ProposalFor(es[|es| - 1], facts, banks, mapping, offset, permitted);
      Proposals(es[..|es| - 1], facts, banks, mapping, offset, permitted) + if p.Some? then [p.value] else []
  }

  // ---- the whole derivation ---------------------------------------------------------------------------------

  datatype Execution = Execution(mapping: map<Name, Name>, banks: seq<BankTransaction>, ledgers: seq<LedgerTransaction>,
                                 result: Result, control: Control, proposals: seq<JournalProposal>)

  function RulesOf(c: Configuration): Option<ReconciliationConfig> {
    if c.dateWindowDays < 0 || c.feeTolerance < 0.0 then None
    else Some(ConfigRow(c.dateWindowDays, false, if c.maxAggregateSize < 2 then 2 else c.maxAggregateSize, c.feeTolerance))
  }

  /** What follows once the reconciliation has an outcome. */
  function Conclude(facts: seq<Fact>, c: Configuration, mapping: map<Name, Name>, banks: seq<BankTransaction>,
                    ledgers: seq<LedgerTransaction>, raw: Result): Execution
  {
    var es := NormalisedAll(raw.exceptions, c.excludePending);
    var material := Materials(es, c.materiality);
    Execution(mapping, banks, ledgers, raw.(exceptions := es),
              ControlOf(facts, banks, ledgers, mapping.Values, |material|),
              Proposals(material, facts, banks, mapping, c.offset, c.permitted))
  }

  ghost function Derive(facts: seq<Fact>, c: Configuration, period: Option<Period>): Projection<Execution> {
    match MappingOf(c.mappings)
    case Refused(reason) => Refused(reason)
    case Projected(mapping) =>
      if RulesOf(c).None? then Refused(BadRules)
      else if period.Some? && period.value.end < period.value.start then Refused(BadPeriod)
      else
        match Banks(facts, mapping, period)
        case Refused(reason) => Refused(reason)
        case Projected(banks) =>
          match Run(banks, Ledgers(facts, period), RulesOf(c).value)
          case Failed(_) => Refused(NotUnique)
          case Reconciled(raw) => Projected(Conclude(facts, c, mapping, banks, Ledgers(facts, period), raw))
  }

  method DeriveCloseExecution(facts: seq<Fact>, c: Configuration, period: Option<Period>) returns (r: Projection<Execution>)
    ensures r == Derive(facts, c, period)
  {
    hide Banks, Ledgers, MappingOf, Run, Conclude;
    var mapping := MappingByPlaidAccount(c.mappings);
    if mapping.Refused? {
      return Refused(mapping.reason);
    }
    var rules := RulesOf(c);
    if rules.None? {
      return Refused(BadRules);
    }
    if period.Some? && period.value.end < period.value.start {
      return Refused(BadPeriod);
    }
    var banks := BankTransactions(facts, mapping.value, period);
    if banks.Refused? {
      return Refused(banks.reason);
    }
    var ledgers := LedgerTransactions(facts, period);
    var outcome := Reconcile(banks.value, ledgers, rules.value);
    if outcome.Failed? {
      return Refused(NotUnique);
    }
    r := Projected(Conclude(facts, c, mapping.value, banks.value, ledgers, outcome.result));
  }
}
