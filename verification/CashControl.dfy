/** What a passed cash control says about the exceptions that remain. */
module CashControl {
  import opened Names
  import opened Reconciliation
  import opened ReconciliationRuns
  import opened ReconciliationTotals
  import opened CloseControls

  // ---- what is projected ---------------------------------------------------------------------------

  predicate Within(date: int, period: Option<Period>) {
    period.Some? ==> date >= period.value.start && date <= period.value.end
  }

  /** A live Plaid fact stops the projection by an unmapped account, or by a negative fee in the period. */
  ghost predicate Acceptable(f: Fact, mapping: map<Name, Name>, period: Option<Period>) {
    f.PlaidFact? && !f.removed ==> f.account in mapping && (Within(f.date, period) ==> f.fee >= 0.0)
  }

  ghost predicate BankedAs(f: Fact, period: Option<Period>, b: BankTransaction) {
    && f.PlaidFact? && !f.removed && Within(f.date, period) && f.fee >= 0.0
    && b == BankRow(Name("plaid:" + f.record.text), f.amount, f.currency, f.date, [f.version], f.pending, f.fee)
  }

  /** Which way the cash went: the transaction type decides, and the payment type where it is silent. */
  ghost function WentOut(f: Fact): Option<bool>
    requires f.XeroCashFact?
  {
    if !f.transactionType.Undirected? then Some(f.transactionType.Outflow?)
    else if !f.paymentType.Undirected? then Some(f.paymentType.Outflow?)
    else None
  }

  ghost predicate LedgeredAs(f: Fact, period: Option<Period>, l: LedgerTransaction) {
    && f.XeroCashFact? && !f.voided && WentOut(f).Some? && Within(f.date, period)
    && var size := if f.amount < 0.0 then -f.amount else f.amount;
       l == LedgerTransaction(Name("xero:" + f.record.text), if WentOut(f).value then size else -size, f.currency, f.date,
                              [f.version], if f.code.Some? then f.code.value else Name("unmapped"))
  }

  /** The bank side is refused exactly for an unmapped account or a negative fee, and
      otherwise holds exactly the live Plaid facts of the period. */
  lemma {:induction false} BanksMeaning(facts: seq<Fact>, mapping: map<Name, Name>, period: Option<Period>, b: BankTransaction)
    ensures Banks(facts, mapping, period).Projected? <==> forall f :: f in facts ==> Acceptable(f, mapping, period)
    ensures Banks(facts, mapping, period).Projected? ==>
              (b in Banks(facts, mapping, period).value <==> exists f :: f in facts && BankedAs(f, period, b))
  {
    if facts != [] {
      var rest, last := facts[..|facts| - 1], facts[|facts| - 1];
      BanksMeaning(rest, mapping, period, b);
      assert facts == rest + [last];
      assert forall f :: f in facts <==> f in rest || f == last;
      assert (forall f :: f in facts ==> Acceptable(f, mapping, period))
        <==> (forall f :: f in rest ==> Acceptable(f, mapping, period)) && Acceptable(last, mapping, period);
      assert (exists f :: f in facts && BankedAs(f, period, b))
        <==> (exists f :: f in rest && BankedAs(f, period, b)) || BankedAs(last, period, b);
    }
  }

  lemma AllAcceptable(facts: seq<Fact>, mapping: map<Name, Name>, period: Option<Period>)
    ensures Banks(facts, mapping, period).Projected? <==> forall f :: f in facts ==> Acceptable(f, mapping, period)
  {
    hide Banks, Acceptable;
    var any: BankTransaction := BankRow(Name(""), 0.0, Name(""), 0, [], false, 0.0);
    BanksMeaning(facts, mapping, period, any);
  }

  lemma {:induction false} LedgersMeaning(facts: seq<Fact>, period: Option<Period>, l: LedgerTransaction)
    ensures l in Ledgers(facts, period) <==> exists f :: f in facts && LedgeredAs(f, period, l)
  {
    if facts != [] {
      var rest, last := facts[..|facts| - 1], facts[|facts| - 1];
      LedgersMeaning(rest, period, l);
      assert facts == rest + [last];
      assert forall f :: f in facts <==> f in rest || f == last;
      assert (exists f :: f in facts && LedgeredAs(f, period, l))
        <==> (exists f :: f in rest && LedgeredAs(f, period, l)) || LedgeredAs(last, period, l);
    }
  }

  /** The projections go fact by fact: joining two lists of facts joins what they project to, so the order and
      the number of the facts are kept. */
  lemma {:induction false} BanksConcat(a: seq<Fact>, b: seq<Fact>, mapping: map<Name, Name>, period: Option<Period>)
    requires Banks(a, mapping, period).Projected? && Banks(b, mapping, period).Projected?
    ensures Banks(a + b, mapping, period) == Projected(Banks(a, mapping, period).value + Banks(b, mapping, period).value)
  {
    if b == [] {
      assert a + b == a && Banks(a, mapping, period).value + [] == Banks(a, mapping, period).value;
    } else {
      hide InPeriod;
      BanksConcat(a, b[..|b| - 1], mapping, period);
      assert (a + b)[..|a + b| - 1] == a + b[..|b| - 1];
      var before, last := Banks(b[..|b| - 1], mapping, period).value, b[|b| - 1];
      if last.PlaidFact? && !last.removed && InPeriod(last.date, period) {
        assert Banks(b, mapping, period).value == before + [BankOf(last)];
        assert Banks(a, mapping, period).value + (before + [BankOf(last)]) == (Banks(a, mapping, period).value + before) + [BankOf(last)];
      }
    }
  }

  lemma {:induction false} LedgersConcat(a: seq<Fact>, b: seq<Fact>, period: Option<Period>)
    ensures Ledgers(a + b, period) == Ledgers(a, period) + Ledgers(b, period)
  {
    if b == [] {
      assert a + b == a;
    } else {
      LedgersConcat(a, b[..|b| - 1], period);
      assert (a + b)[..|a + b| - 1] == a + b[..|b| - 1];
    }
  }

  /** One fact gives at most one transaction. */
  lemma OneEach(f: Fact, mapping: map<Name, Name>, period: Option<Period>)
    ensures |Ledgers([f], period)| <= 1
    ensures Banks([f], mapping, period).Projected? ==> |Banks([f], mapping, period).value| <= 1
  {
    var none: seq<Fact> := [];
    assert [f][..0] == none;
  }

  /** A unit the two providers' prefixes keep apart. */
  lemma PrefixesApart(r: Name)
    ensures IsPlaidId(PlaidId(r)) && !IsPlaidId(XeroId(r))
  {
    assert PlaidId(r).text[..6] == "plaid:";
    var text := XeroId(r).text;
    assert text[0] == 'x' && "plaid:"[0] == 'p';
    assert |text| >= 6 ==> text[..6][0] == text[0];
  }

  lemma BankIsPlaid(facts: seq<Fact>, mapping: map<Name, Name>, period: Option<Period>, b: BankTransaction)
    requires Banks(facts, mapping, period).Projected? && b in Banks(facts, mapping, period).value
    ensures IsPlaidId(b.id)
  {
    hide Banks, IsPlaidId, Within;
    BanksMeaning(facts, mapping, period, b);
    var f :| f in facts && BankedAs(f, period, b);
    PrefixesApart(f.record);
  }

  lemma LedgerIsNotPlaid(facts: seq<Fact>, period: Option<Period>, l: LedgerTransaction)
    requires l in Ledgers(facts, period)
    ensures !IsPlaidId(l.id)
  {
    hide Ledgers, IsPlaidId, Within;
    LedgersMeaning(facts, period, l);
    var f :| f in facts && LedgeredAs(f, period, l);
    PrefixesApart(f.record);
  }

  /** The premise of the conservation law holds of every derived pair of lists. */
  lemma DerivedIdsApart(facts: seq<Fact>, mapping: map<Name, Name>, period: Option<Period>)
    requires Banks(facts, mapping, period).Projected?
    ensures Disjoint(Banks(facts, mapping, period).value, Ledgers(facts, period))
  {
    hide Banks, Ledgers, IsPlaidId, BankIds;
    var banks, ledgers := Banks(facts, mapping, period).value, Ledgers(facts, period);
    forall id | id in BankIds(banks) && id in IdSet(ledgers) ensures false {
      BankIdsContains(banks, id);
      var i :| 0 <= i < |banks| && banks[i].id == id;
      BankIsPlaid(facts, mapping, period, banks[i]);
      var l :| l in ledgers && l.id == id;
      LedgerIsNotPlaid(facts, period, l);
    }
  }

  // ---- sums over everything ---------------------------------------------------------------------------

  ghost function Currencies(banks: seq<BankTransaction>, ledgers: seq<LedgerTransaction>): set<Name> {
    (set b | b in banks :: b.currency) + (set l | l in ledgers :: l.currency)
  }

  /** What the ledger holds outside the mapped cash accounts. */
  ghost function OffCash(ledgers: seq<LedgerTransaction>, cashCodes: set<Name>): Money {
    if ledgers == [] then 0.0
    else (if ledgers[0].accountCode in cashCodes then 0.0 else ledgers[0].amount) + OffCash(ledgers[1..], cashCodes)
  }

  lemma {:induction false} WholeBank(banks: seq<BankTransaction>, cs: set<Name>)
    requires forall b :: b in banks ==> b.currency in cs
    ensures BankSum(banks) == BankTotal(banks, cs)
  {
    if banks != [] { WholeBank(banks[..|banks| - 1], cs); }
  }

  lemma {:induction false} WholeLedger(ledgers: seq<LedgerTransaction>, cashCodes: set<Name>, cs: set<Name>)
    requires forall l :: l in ledgers ==> l.currency in cs
    ensures CashSum(ledgers, cashCodes) + OffCash(ledgers, cashCodes) == LedgerTotal(ledgers, cs)
  {
    if ledgers != [] { WholeLedger(ledgers[1..], cashCodes, cs); }
  }

  lemma {:induction false} NothingOffCash(ledgers: seq<LedgerTransaction>, cashCodes: set<Name>)
    requires forall l :: l in ledgers ==> l.accountCode in cashCodes
    ensures OffCash(ledgers, cashCodes) == 0.0
  {
    if ledgers != [] { NothingOffCash(ledgers[1..], cashCodes); }
  }

  lemma NormalisedSnoc(es: seq<ReconciliationException>, excludePending: bool)
    requires es != []
    ensures NormalisedAll(es, excludePending)
         == NormalisedAll(es[..|es| - 1], excludePending) + [Normalised(es[|es| - 1], excludePending)]
  {
  }

  lemma {:induction false} NormalisingKeepsTotals(es: seq<ReconciliationException>, excludePending: bool, ledgerSide: bool, cs: set<Name>)
    ensures ExceptionTotal(NormalisedAll(es, excludePending), ledgerSide, cs) == ExceptionTotal(es, ledgerSide, cs)
  {
    if es != [] {
      var rest, last := es[..|es| - 1], es[|es| - 1];
      assert es == rest + [last];
      NormalisedSnoc(es, excludePending);
      NormalisingKeepsTotals(rest, excludePending, ledgerSide, cs);
      ExceptionSnoc(rest, last, ledgerSide, cs);
      ExceptionSnoc(NormalisedAll(rest, excludePending), Normalised(last, excludePending), ledgerSide, cs);
    }
  }

  lemma {:induction false} MaterialsMeaning(es: seq<ReconciliationException>, threshold: Money, e: ReconciliationException)
    ensures e in Materials(es, threshold) <==> e in es && Material(e, threshold)
  {
    if es != [] {
      MaterialsMeaning(es[..|es| - 1], threshold, e);
      assert es == es[..|es| - 1] + [es[|es| - 1]];
    }
  }

  lemma NoMaterials(es: seq<ReconciliationException>, threshold: Money)
    ensures |Materials(es, threshold)| == 0 <==> forall e :: e in es && e.status == Open ==> Abs(e.amount) <= threshold
  {
    hide Materials;
    var ms := Materials(es, threshold);
    forall e ensures e in ms <==> e in es && Material(e, threshold) { MaterialsMeaning(es, threshold, e); }
    if ms != [] { assert ms[0] in ms; }
  }

  // ---- the control -----------------------------------------------------------------------------------------

  /** What the bank shows beyond the cash accounts, told by the exceptions, the fees and
      what the ledger booked elsewhere. */
  ghost function Unexplained(x: Execution): Money {
    var cs := Currencies(x.banks, x.ledgers);
    ExceptionTotal(x.result.exceptions, false, cs) - ExceptionTotal(x.result.exceptions, true, cs)
    - FeeTotal(x.banks, x.result.matches, cs) + OffCash(x.ledgers, x.mapping.Values)
  }

  lemma Unfold(facts: seq<Fact>, c: Configuration, period: Option<Period>, x: Execution) returns (raw: Result)
    requires Derive(facts, c, period) == Projected(x)
    ensures MappingOf(c.mappings) == Projected(x.mapping) && RulesOf(c).Some?
    ensures Banks(facts, x.mapping, period) == Projected(x.banks) && Ledgers(facts, period) == x.ledgers
    ensures Completed(x.banks, x.ledgers, RulesOf(c).value, raw)
    ensures x == Conclude(facts, c, x.mapping, x.banks, x.ledgers, raw)
  {
    hide Banks, Ledgers, MappingOf, Run, ControlOf, Proposals, Materials, NormalisedAll;
    raw := Run(x.banks, Ledgers(facts, period), RulesOf(c).value).result;
  }

  lemma DifferenceExplained(facts: seq<Fact>, c: Configuration, period: Option<Period>, x: Execution)
    requires Derive(facts, c, period) == Projected(x)
    ensures BankSum(x.banks) - CashSum(x.ledgers, x.mapping.Values) == Unexplained(x)
  {
    hide Derive, Banks, Ledgers, Disjoint, Completed, ExceptionTotal, FeeTotal, BankTotal, LedgerTotal, Currencies, OffCash, BankSum,
         CashSum, NormalisedAll, Materials, Proposals, ControlOf;
    var raw := Unfold(facts, c, period, x);
    var cs := Currencies(x.banks, x.ledgers);
    DerivedIdsApart(facts, x.mapping, period);
    MoneyIsConserved(x.banks, x.ledgers, RulesOf(c).value, raw, cs);
    CurrenciesCover(x.banks, x.ledgers);
    WholeBank(x.banks, cs);
    WholeLedger(x.ledgers, x.mapping.Values, cs);
    NormalisingKeepsTotals(raw.exceptions, c.excludePending, false, cs);
    NormalisingKeepsTotals(raw.exceptions, c.excludePending, true, cs);
  }

  lemma CurrenciesCover(banks: seq<BankTransaction>, ledgers: seq<LedgerTransaction>)
    ensures forall b :: b in banks ==> b.currency in Currencies(banks, ledgers)
    ensures forall l :: l in ledgers ==> l.currency in Currencies(banks, ledgers)
  {
  }

  /** The control passes exactly when the three provider reports are there, no open exception
      exceeds the threshold, and the exceptions net to the absorbed fees and what was booked
      off the cash accounts. */
  lemma ControlPassesExactlyWhen(facts: seq<Fact>, c: Configuration, period: Option<Period>, x: Execution)
    requires Derive(facts, c, period) == Projected(x)
    ensures x.control == Passed <==>
              && ReportFact(TrialBalanceReport) in facts && ReportFact(ProfitAndLossReport) in facts && ReportFact(BalanceSheetReport) in facts
              && (forall e :: e in x.result.exceptions && e.status == Open ==> -c.materiality <= e.amount <= c.materiality)
              && Unexplained(x) == 0.0
  {
    hide Derive, Materials, BankSum, CashSum, Unexplained, Proposals, NormalisedAll, Completed, Banks, Ledgers;
    var raw := Unfold(facts, c, period, x);
    DifferenceExplained(facts, c, period, x);
    NoMaterials(x.result.exceptions, c.materiality);
  }

  /** With every ledger transaction on a mapped cash account, a passed control means that
      the exceptions net exactly to the fees on fee matches. */
  lemma PassedNetsToFees(facts: seq<Fact>, c: Configuration, period: Option<Period>, x: Execution)
    requires Derive(facts, c, period) == Projected(x) && x.control == Passed
    requires forall l :: l in x.ledgers ==> l.accountCode in x.mapping.Values
    ensures var cs := Currencies(x.banks, x.ledgers);
            ExceptionTotal(x.result.exceptions, false, cs) - ExceptionTotal(x.result.exceptions, true, cs)
            == FeeTotal(x.banks, x.result.matches, cs)
  {
    hide Derive, ExceptionTotal, FeeTotal, Currencies, OffCash;
    ControlPassesExactlyWhen(facts, c, period, x);
    NothingOffCash(x.ledgers, x.mapping.Values);
  }

  // ---- the configuration and the signs -----------------------------------------------------------------------

  ghost predicate GoodRows(rows: seq<BankMapping>) {
    && (forall i :: 0 <= i < |rows| ==> rows[i].account.text != "" && rows[i].code.text != "")
    && forall i, j :: 0 <= i < j < |rows| ==> rows[i].account != rows[j].account
  }

  /** The mapping is read exactly from rows without blanks and without a repeated account, and
      then gives every account the code of its row. */
  lemma {:induction false} MappingMeaning(rows: seq<BankMapping>, account: Name)
    ensures MappingOf(rows).Projected? <==> GoodRows(rows)
    ensures MappingOf(rows).Projected? ==>
              && (account in MappingOf(rows).value <==> exists i :: 0 <= i < |rows| && rows[i].account == account)
              && forall i :: 0 <= i < |rows| && rows[i].account == account ==> MappingOf(rows).value[account] == rows[i].code
  {
    if rows != [] {
      var rest, last := rows[..|rows| - 1], rows[|rows| - 1];
      assert rows == rest + [last];
      MappingMeaning(rest, account);
      MappingMeaning(rest, last.account);
      assert forall i :: 0 <= i < |rest| ==> rest[i] == rows[i];
    }
  }

  /** The signed amount exists exactly when a direction is known; it keeps the size of the stated
      amount, whatever its sign, and is positive exactly for an outflow. */
  lemma CashAmountSign(f: Fact)
    requires f.XeroCashFact?
    ensures CashAmount(f).Some? <==> WentOut(f).Some?
    ensures CashAmount(f).Some? ==>
              && Abs(CashAmount(f).value) == Abs(f.amount)
              && (f.amount != 0.0 ==> (CashAmount(f).value > 0.0 <==> WentOut(f).value))
  {
  }
}
