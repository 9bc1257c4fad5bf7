/** When a close execution is derived, why it is refused otherwise, and what its parts are. */
module Derivations {
  import opened Names
  import opened Reconciliation
  import opened GroupSearch
  import opened ReconciliationRuns
  import opened ReconciliationStatuses
  import opened CloseControls
  import opened CashControl

  ghost predicate GoodRules(c: Configuration) { c.dateWindowDays >= 0 && c.feeTolerance >= 0.0 }

  ghost predicate GoodPeriod(period: Option<Period>) { period.Some? ==> period.value.start <= period.value.end }

  /** The mapping that good rows say. */
  ghost predicate SaysMapping(rows: seq<BankMapping>, m: map<Name, Name>) {
    && (forall account :: account in m <==> exists i :: 0 <= i < |rows| && rows[i].account == account)
    && forall i :: 0 <= i < |rows| ==> rows[i].account in m && m[rows[i].account] == rows[i].code
  }

  lemma MappingSays(rows: seq<BankMapping>)
    requires GoodRows(rows)
    ensures MappingOf(rows).Projected? && SaysMapping(rows, MappingOf(rows).value)
  {
    hide MappingOf, GoodRows;
    MappingMeaning(rows, Name(""));
    forall account
      ensures account in MappingOf(rows).value <==> exists i :: 0 <= i < |rows| && rows[i].account == account
      ensures forall i :: 0 <= i < |rows| && rows[i].account == account ==> MappingOf(rows).value[account] == rows[i].code
    {
      MappingMeaning(rows, account);
    }
    forall i | 0 <= i < |rows| ensures rows[i].account in MappingOf(rows).value {}
  }

  /** The first fact that stops the projection does so by its account, or by its fee. */
  ghost predicate StopsAt(facts: seq<Fact>, mapping: map<Name, Name>, period: Option<Period>, i: int, reason: Refusal) {
    && 0 <= i < |facts| && !Acceptable(facts[i], mapping, period)
    && (forall j :: 0 <= j < i ==> Acceptable(facts[j], mapping, period))
    && reason == if facts[i].account in mapping then NegativeFee else UnmappedAccount
  }

  lemma {:induction false} BanksRefusal(facts: seq<Fact>, mapping: map<Name, Name>, period: Option<Period>, reason: Refusal)
    ensures Banks(facts, mapping, period) == Refused(reason) <==> exists i :: StopsAt(facts, mapping, period, i, reason)
  {
    if facts != [] {
      var rest, last := facts[..|facts| - 1], facts[|facts| - 1];
      BanksRefusal(rest, mapping, period, reason);
      AllAcceptable(rest, mapping, period);
      assert forall i :: 0 <= i < |rest| ==> rest[i] == facts[i];
      assert forall i :: StopsAt(rest, mapping, period, i, reason) ==> StopsAt(facts, mapping, period, i, reason);
      forall i | StopsAt(facts, mapping, period, i, reason) ensures StopsAt(rest, mapping, period, i, reason) || i == |rest| {}
      if Banks(rest, mapping, period).Projected? {
        forall j | 0 <= j < |rest| ensures Acceptable(facts[j], mapping, period) { assert rest[j] in rest; }
        assert StopsAt(facts, mapping, period, |rest|, reason) <==> Banks(facts, mapping, period) == Refused(reason);
      } else {
        var f :| f in rest && !Acceptable(f, mapping, period);
        var k :| 0 <= k < |rest| && rest[k] == f;
        assert !StopsAt(facts, mapping, period, |rest|, reason);
      }
    }
  }

  /** Two bank transactions, or two ledger transactions, of the projected facts share an id. */
  ghost predicate Repeats(facts: seq<Fact>, mapping: map<Name, Name>, period: Option<Period>) {
    && Banks(facts, mapping, period).Projected?
    && (!UniqueBankIds(Banks(facts, mapping, period).value) || !UniqueIds(Ledgers(facts, period)))
  }

  lemma RunFails(banks: seq<BankTransaction>, ledgers: seq<LedgerTransaction>, config: ReconciliationConfig)
    requires Disjoint(banks, ledgers)
    ensures Run(banks, ledgers, config).Failed? <==> !UniqueBankIds(banks) || !UniqueIds(ledgers)
  {
    hide Run, UniqueBankIds, UniqueIds, Disjoint;
    RefusedExactlyForRepeatedIds(banks, ledgers, config);
    match Run(banks, ledgers, config) {
      case Reconciled(_) =>
      case Failed(reason) => match reason { case LedgerIdsNotUnique => case BankIdsNotUnique => }
    }
  }

  /** What a derivation comes to once mapping, rules and period are good. */
  ghost predicate Projects(facts: seq<Fact>, period: Option<Period>, m: map<Name, Name>, r: Projection<Execution>) {
    && (forall reason :: reason == UnmappedAccount || reason == NegativeFee ==>
          (r == Refused(reason) <==> exists i :: StopsAt(facts, m, period, i, reason)))
    && (r == Refused(NotUnique) <==> Repeats(facts, m, period))
    && (r.Projected? <==> (forall f :: f in facts ==> Acceptable(f, m, period)) && !Repeats(facts, m, period))
  }

  lemma GoodDerivation(facts: seq<Fact>, c: Configuration, period: Option<Period>)
    requires MappingOf(c.mappings).Projected? && GoodRules(c) && GoodPeriod(period)
    ensures Projects(facts, period, MappingOf(c.mappings).value, Derive(facts, c, period))
    ensures !(Derive(facts, c, period).Refused? && Derive(facts, c, period).reason in {BadMapping, BadRules, BadPeriod})
  {
    hide Banks, Ledgers, MappingOf, Run, Conclude, UniqueBankIds, UniqueIds, Acceptable, StopsAt, Disjoint;
    var m := MappingOf(c.mappings).value;
    AllAcceptable(facts, m, period);
    BanksRefusal(facts, m, period, UnmappedAccount);
    BanksRefusal(facts, m, period, NegativeFee);
    BanksReason(facts, m, period);
    if Banks(facts, m, period).Projected? {
      DerivedIdsApart(facts, m, period);
      RunFails(Banks(facts, m, period).value, Ledgers(facts, period), RulesOf(c).value);
    }
  }

  lemma BadDerivation(facts: seq<Fact>, c: Configuration, period: Option<Period>)
    requires MappingOf(c.mappings).Refused? || !GoodRules(c) || !GoodPeriod(period)
    ensures Derive(facts, c, period)
         == Refused(if MappingOf(c.mappings).Refused? then BadMapping else if !GoodRules(c) then BadRules else BadPeriod)
  {
    hide Banks, Ledgers, MappingOf, Run, Conclude;
    MappingReason(c.mappings);
  }

  /** A derivation is refused for the first of these reasons that applies: the mapping rows, the rules, the
      period, a Plaid fact, a repeated transaction id. */
  lemma RefusedExactlyWhen(facts: seq<Fact>, c: Configuration, period: Option<Period>)
    ensures Derive(facts, c, period) == Refused(BadMapping) <==> !GoodRows(c.mappings)
    ensures Derive(facts, c, period) == Refused(BadRules) <==> GoodRows(c.mappings) && !GoodRules(c)
    ensures Derive(facts, c, period) == Refused(BadPeriod) <==> GoodRows(c.mappings) && GoodRules(c) && !GoodPeriod(period)
    ensures GoodRows(c.mappings) && GoodRules(c) && GoodPeriod(period) ==>
              exists m :: SaysMapping(c.mappings, m) && Projects(facts, period, m, Derive(facts, c, period))
  {
    hide Derive, Banks, Ledgers, MappingOf, GoodRows, SaysMapping, Projects, GoodRules, GoodPeriod;
    MappingMeaning(c.mappings, Name(""));
    if GoodRows(c.mappings) && GoodRules(c) && GoodPeriod(period) {
      MappingSays(c.mappings);
      GoodDerivation(facts, c, period);
    } else {
      BadDerivation(facts, c, period);
    }
  }

  lemma {:induction false} MappingReason(rows: seq<BankMapping>)
    ensures MappingOf(rows).Refused? ==> MappingOf(rows) == Refused(BadMapping)
  {
    if rows != [] { MappingReason(rows[..|rows| - 1]); }
  }

  lemma {:induction false} BanksReason(facts: seq<Fact>, mapping: map<Name, Name>, period: Option<Period>)
    ensures Banks(facts, mapping, period).Refused? ==> Banks(facts, mapping, period).reason in {UnmappedAccount, NegativeFee}
  {
    if facts != [] { BanksReason(facts[..|facts| - 1], mapping, period); }
  }

  /** The rules of a derivation: pending transactions are never allowed, groups may have at least two. */
  ghost predicate RulesAre(c: Configuration, rules: ReconciliationConfig) {
    && rules.dateWindowDays == c.dateWindowDays && rules.feeTolerance == c.feeTolerance && !rules.allowPending
    && rules.maxAggregateSize >= 2 && rules.maxAggregateSize >= c.maxAggregateSize
    && (rules.maxAggregateSize == 2 || rules.maxAggregateSize == c.maxAggregateSize)
  }

  /** The exception as the reconciliation gave it, set to ignored if it is pending and those are excluded. */
  ghost predicate ShownAs(raw: ReconciliationException, e: ReconciliationException, excludePending: bool) {
    && e == raw.(status := e.status)
    && (excludePending && raw.code == PendingTransaction ==> e.status == Ignored)
    && (!excludePending || raw.code != PendingTransaction ==> e.status == raw.status)
  }

  ghost predicate ReportsMissing(facts: seq<Fact>) {
    exists kind :: ReportFact(kind) !in facts
  }

  /** What is derived: the run on the projected facts by these rules, its matches and statuses untouched, its
      exceptions shown as the policy says, and an unavailable control exactly while a report is missing. */
  lemma DerivedParts(facts: seq<Fact>, c: Configuration, period: Option<Period>, x: Execution)
    returns (rules: ReconciliationConfig, raw: Result)
    requires Derive(facts, c, period) == Projected(x)
    ensures SaysMapping(c.mappings, x.mapping) && RulesAre(c, rules)
    ensures Banks(facts, x.mapping, period) == Projected(x.banks) && Ledgers(facts, period) == x.ledgers
    ensures Completed(x.banks, x.ledgers, rules, raw)
    ensures x.result.matches == raw.matches && x.result.statuses == raw.statuses
    ensures |x.result.exceptions| == |raw.exceptions|
            && forall k :: 0 <= k < |raw.exceptions| ==> ShownAs(raw.exceptions[k], x.result.exceptions[k], c.excludePending)
    ensures x.control == Unavailable <==> ReportsMissing(facts)
  {
    hide Derive, Banks, Ledgers, MappingOf, Completed, Proposals, Materials, BankSum, CashSum, GoodRows, SaysMapping;
    raw := Unfold(facts, c, period, x);
    rules := RulesOf(c).value;
    MappingMeaning(c.mappings, Name(""));
    MappingSays(c.mappings);
    forall kind ensures AllReports(facts) ==> ReportFact(kind) in facts {
      match kind { case TrialBalanceReport => case ProfitAndLossReport => case BalanceSheetReport => }
    }
  }
}
