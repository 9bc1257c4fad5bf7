/** Conservation laws of a reconciliation run: money, transactions and statuses. */
module ReconciliationTotals {
  import opened Names
  import opened Reconciliation
  import opened GroupSearch
  import opened ReconciliationRuns

  // ---- totals over a set of currencies --------------------------------------------------------

  ghost function BankTotal(banks: seq<BankTransaction>, cs: set<Name>): Money {
    if banks == [] then 0.0
    else
      var last := banks[|banks| - 1];
      BankTotal(banks[..|banks| - 1], cs) + if last.currency in cs then last.amount else 0.0
  }

  ghost function LedgerTotal(ledgers: seq<LedgerTransaction>, cs: set<Name>): Money {
    if ledgers == [] then 0.0
    else (if ledgers[0].currency in cs then ledgers[0].amount else 0.0) + LedgerTotal(ledgers[1..], cs)
  }

  /** The exceptions raised for ledger transactions, or those raised for bank transactions. */
  ghost function ExceptionTotal(es: seq<ReconciliationException>, ledgerSide: bool, cs: set<Name>): Money {
    if es == [] then 0.0
    else
      var last := es[|es| - 1];
      ExceptionTotal(es[..|es| - 1], ledgerSide, cs)
      + if (last.code == UnmatchedLedger) == ledgerSide && last.currency in cs then last.amount else 0.0
  }

  ghost function FeeOf(banks: seq<BankTransaction>, id: Name): Money {
    if banks == [] then 0.0
    else if banks[|banks| - 1].id == id then banks[|banks| - 1].fee
    else FeeOf(banks[..|banks| - 1], id)
  }

  /** The bank fees absorbed by fee matches. */
  ghost function FeeTotal(banks: seq<BankTransaction>, matches: seq<MatchGroup>, cs: set<Name>): Money {
    if matches == [] then 0.0
    else
      var last := matches[|matches| - 1];
      FeeTotal(banks, matches[..|matches| - 1], cs)
      + if last.kind == Fee && last.currency in cs then FeeOf(banks, last.bankId) else 0.0
  }

  ghost function InCurrency(ledgers: seq<LedgerTransaction>, cs: set<Name>): set<Name> {
    set l | l in ledgers && l.currency in cs :: l.id
  }

  // ---- sums over id sets ------------------------------------------------------------------------

  lemma {:induction false} AmountUnion(ledgers: seq<LedgerTransaction>, a: set<Name>, b: set<Name>)
    requires a !! b
    ensures AmountOf(ledgers, a + b) == AmountOf(ledgers, a) + AmountOf(ledgers, b)
  {
    if ledgers != [] { AmountUnion(ledgers[1..], a, b); }
  }

  lemma {:induction false} AmountNone(ledgers: seq<LedgerTransaction>)
    ensures AmountOf(ledgers, {}) == 0.0
  {
    if ledgers != [] { AmountNone(ledgers[1..]); }
  }

  lemma {:induction false} AmountSnoc(ledgers: seq<LedgerTransaction>, last: LedgerTransaction, ids: set<Name>)
    ensures AmountOf(ledgers + [last], ids) == AmountOf(ledgers, ids) + if last.id in ids then last.amount else 0.0
  {
    if ledgers != [] {
      AmountSnoc(ledgers[1..], last, ids);
      assert (ledgers + [last])[1..] == ledgers[1..] + [last];
    }
  }

  lemma {:induction false} AmountInCurrency(part: seq<LedgerTransaction>, ledgers: seq<LedgerTransaction>, cs: set<Name>)
    requires UniqueIds(ledgers) && forall l :: l in part ==> l in ledgers
    ensures AmountOf(part, InCurrency(ledgers, cs)) == LedgerTotal(part, cs)
  {
    if part != [] {
      AmountInCurrency(part[1..], ledgers, cs);
      assert part[0] in ledgers;
    }
  }

  /** Everything available to a bank transaction is in its currency. */
  lemma AvailableCurrency(bank: BankTransaction, ledgers: seq<LedgerTransaction>, config: ReconciliationConfig,
                          used: set<Name>, taken: set<Name>, cs: set<Name>)
    requires UniqueIds(ledgers) && taken <= Available(bank, ledgers, config, used)
    ensures taken * InCurrency(ledgers, cs) == if bank.currency in cs then taken else {}
  {
    forall id | id in taken ensures id in InCurrency(ledgers, cs) <==> bank.currency in cs {
      var l :| l in ledgers && Eligible(bank, l, config, used) && l.id == id;
    }
  }

  // ---- money ----------------------------------------------------------------------------------------

  ghost predicate Balanced(banks: seq<BankTransaction>, n: nat, ledgers: seq<LedgerTransaction>, p: Progress, cs: set<Name>)
    requires n <= |banks|
  {
    BankTotal(banks[..n], cs) - AmountOf(ledgers, p.used * InCurrency(ledgers, cs))
    == ExceptionTotal(p.exceptions, false, cs) - FeeTotal(banks, p.matches, cs)
  }

  lemma {:induction false} FeeById(banks: seq<BankTransaction>, i: nat)
    requires UniqueBankIds(banks) && i < |banks|
    ensures FeeOf(banks, banks[i].id) == banks[i].fee
  {
    if i < |banks| - 1 { FeeById(banks[..|banks| - 1], i); }
  }

  lemma ExceptionSnoc(es: seq<ReconciliationException>, e: ReconciliationException, ledgerSide: bool, cs: set<Name>)
    ensures ExceptionTotal(es + [e], ledgerSide, cs)
         == ExceptionTotal(es, ledgerSide, cs)
            + if (e.code == UnmatchedLedger) == ledgerSide && e.currency in cs then e.amount else 0.0
  {
    assert (es + [e])[..|es|] == es;
  }

  lemma FeeSnoc(banks: seq<BankTransaction>, matches: seq<MatchGroup>, m: MatchGroup, cs: set<Name>)
    ensures FeeTotal(banks, matches + [m], cs)
         == FeeTotal(banks, matches, cs) + if m.kind == Fee && m.currency in cs then FeeOf(banks, m.bankId) else 0.0
  {
    assert (matches + [m])[..|matches|] == matches;
  }

  /** The change one verdict makes on both sides of the balance. */
  lemma RecordBalance(banks: seq<BankTransaction>, i: nat, p: Progress, v: Verdict, cs: set<Name>)
    requires i < |banks| && UniqueBankIds(banks)
    ensures var q := Record(p, banks[i], v);
            ExceptionTotal(q.exceptions, false, cs) - FeeTotal(banks, q.matches, cs)
            == ExceptionTotal(p.exceptions, false, cs) - FeeTotal(banks, p.matches, cs)
               + if banks[i].currency !in cs then 0.0
                 else if IsMatch(v) then - FeePart(banks[i], v) else banks[i].amount
  {
    hide Evidence, IdSet, Mark, ExceptionTotal, FeeTotal, FeeOf, UniqueBankIds;
    FeeById(banks, i);
    if IsMatch(v) {
      FeeSnoc(banks, p.matches, MatchOf(banks[i], v), cs);
    } else {
      ExceptionSnoc(p.exceptions, ExceptionOf(banks[i], v), false, cs);
    }
  }

  lemma ConsumedAmount(bank: BankTransaction, ledgers: seq<LedgerTransaction>, config: ReconciliationConfig,
                       used: set<Name>, taken: set<Name>, cs: set<Name>)
    requires UniqueIds(ledgers) && taken <= Available(bank, ledgers, config, used)
    ensures AmountOf(ledgers, (used + taken) * InCurrency(ledgers, cs))
         == AmountOf(ledgers, used * InCurrency(ledgers, cs))
            + if bank.currency in cs then AmountOf(ledgers, taken) else 0.0
  {
    hide UniqueIds, AmountOf, Available, InCurrency, IdSet;
    var inside := InCurrency(ledgers, cs);
    AvailableIds(bank, ledgers, config, used);
    AvailableCurrency(bank, ledgers, config, used, taken, cs);
    AmountUnion(ledgers, used * inside, taken * inside);
    AmountNone(ledgers);
    assert (used + taken) * inside == used * inside + taken * inside;
  }

  lemma RecordBalanced(banks: seq<BankTransaction>, i: nat, ledgers: seq<LedgerTransaction>, config: ReconciliationConfig,
                       p: Progress, cs: set<Name>)
    requires UniqueIds(ledgers) && UniqueBankIds(banks) && i < |banks| && Balanced(banks, i, ledgers, p, cs)
    ensures Balanced(banks, i + 1, ledgers, Record(p, banks[i], Judge(banks[i], ledgers, config, p.used)), cs)
  {
    hide Judge, Record, IdSet, UniqueIds, UniqueBankIds, GroupOf, KindOf, AmountOf, Available, InCurrency, ExceptionTotal, FeeTotal;
    var bank := banks[i];
    var v := Judge(bank, ledgers, config, p.used);
    RecordShape(p, bank, v);
    RecordBalance(banks, i, p, v, cs);
    VerdictTakes(bank, ledgers, config, p.used);
    ConsumedAmount(bank, ledgers, config, p.used, IdSet(GroupOf(v)), cs);
    assert banks[..i + 1][..i] == banks[..i];
    if !IsMatch(v) {
      NoGroupTaken(v);
      AmountNone(ledgers);
    }
  }

  lemma NoGroupTaken(v: Verdict)
    requires !IsMatch(v)
    ensures IdSet(GroupOf(v)) == {}
  {
  }

  lemma {:induction false} PassBalances(banks: seq<BankTransaction>, ledgers: seq<LedgerTransaction>, config: ReconciliationConfig,
                                        n: nat, cs: set<Name>)
    requires UniqueIds(ledgers) && UniqueBankIds(banks) && n <= |banks|
    ensures Balanced(banks, n, ledgers, After(banks, ledgers, config, n), cs)
  {
    hide After, Judge, Record, UniqueIds, UniqueBankIds, InCurrency;
    if n == 0 {
      AfterNone(banks, ledgers, config);
      AmountNone(ledgers);
      assert {} * InCurrency(ledgers, cs) == {};
    } else {
      PassBalances(banks, ledgers, config, n - 1, cs);
      AfterStep(banks, ledgers, config, n);
      RecordBalanced(banks, n - 1, ledgers, config, After(banks, ledgers, config, n - 1), cs);
    }
  }

  // ---- the closing sweep -------------------------------------------------------------------------------

  ghost function Leftover(p: Progress, ledgers: seq<LedgerTransaction>): seq<ReconciliationException> {
    if ledgers == [] then []
    else
      var last := ledgers[|ledgers| - 1];
      Leftover(p, ledgers[..|ledgers| - 1]) + if Unreported(p, last) then [LedgerException(last)] else []
  }

  ghost predicate ReportedBy(p: Progress, ledgers: seq<LedgerTransaction>, n: nat, id: Name)
    requires n <= |ledgers|
  {
    exists k :: 0 <= k < n && ledgers[k].id == id && Unreported(p, ledgers[k])
  }

  /** The sweep reports each leftover ledger transaction once, whatever it reported before. */
  lemma {:induction false} SweepExact(p: Progress, ledgers: seq<LedgerTransaction>, n: nat)
    requires UniqueIds(ledgers) && n <= |ledgers|
    ensures var q := Sweep(p, ledgers, n);
            && q.used == p.used
            && q.exceptions == p.exceptions + Leftover(p, ledgers[..n])
            && (forall id :: id in q.statuses <==> id in p.statuses || ReportedBy(p, ledgers, n, id))
            && (forall id :: id in q.statuses ==> q.statuses[id] == if id in p.statuses then p.statuses[id] else Exceptional)
  {
    if n > 0 {
      SweepExact(p, ledgers, n - 1);
      var q := Sweep(p, ledgers, n - 1);
      var last := ledgers[n - 1];
      assert ledgers[..n][..n - 1] == ledgers[..n - 1];
      assert !ReportedBy(p, ledgers, n - 1, last.id);
      assert Unreported(q, last) == Unreported(p, last);
      forall id ensures ReportedBy(p, ledgers, n, id) <==> ReportedBy(p, ledgers, n - 1, id) || (id == last.id && Unreported(p, last)) {
        if ReportedBy(p, ledgers, n - 1, id) {
          var k :| 0 <= k < n - 1 && ledgers[k].id == id && Unreported(p, ledgers[k]);
          assert k < n;
        }
      }
    }
  }

  ghost function Free(p: Progress, ledgers: seq<LedgerTransaction>): set<Name> {
    IdSet(ledgers) - p.used
  }

  lemma {:induction false} LeftoverTotals(p: Progress, part: seq<LedgerTransaction>, ledgers: seq<LedgerTransaction>, cs: set<Name>)
    requires UniqueIds(ledgers) && (forall l :: l in part ==> l in ledgers)
    requires forall l :: l in ledgers ==> (l.id in p.statuses ==> l.id in p.used)
    ensures ExceptionTotal(Leftover(p, part), true, cs) == AmountOf(part, Free(p, ledgers) * InCurrency(ledgers, cs))
    ensures ExceptionTotal(Leftover(p, part), false, cs) == 0.0
  {
    if part != [] {
      hide UniqueIds, InCurrency, IdSet, AmountOf, ExceptionTotal;
      var rest, last := part[..|part| - 1], part[|part| - 1];
      assert part == rest + [last] && last in part;
      LeftoverTotals(p, rest, ledgers, cs);
      AmountSnoc(rest, last, Free(p, ledgers) * InCurrency(ledgers, cs));
      MemberId(ledgers, last);
      LeftoverSnoc(p, part, cs);
    }
  }

  lemma LeftoverSnoc(p: Progress, part: seq<LedgerTransaction>, cs: set<Name>)
    requires part != []
    ensures var rest, last := part[..|part| - 1], part[|part| - 1];
            && ExceptionTotal(Leftover(p, part), true, cs)
               == ExceptionTotal(Leftover(p, rest), true, cs)
                  + (if Unreported(p, last) && last.currency in cs then last.amount else 0.0)
            && ExceptionTotal(Leftover(p, part), false, cs) == ExceptionTotal(Leftover(p, rest), false, cs)
  {
    hide ExceptionTotal;
    var rest, last := part[..|part| - 1], part[|part| - 1];
    if Unreported(p, last) {
      ExceptionSnoc(Leftover(p, rest), LedgerException(last), true, cs);
      ExceptionSnoc(Leftover(p, rest), LedgerException(last), false, cs);
    } else {
      assert Leftover(p, part) == Leftover(p, rest);
    }
  }

  lemma MemberId(ledgers: seq<LedgerTransaction>, l: LedgerTransaction)
    requires l in ledgers
    ensures l.id in IdSet(ledgers)
  {
  }

  lemma {:induction false} ExceptionAppend(a: seq<ReconciliationException>, b: seq<ReconciliationException>, ledgerSide: bool, cs: set<Name>)
    ensures ExceptionTotal(a + b, ledgerSide, cs) == ExceptionTotal(a, ledgerSide, cs) + ExceptionTotal(b, ledgerSide, cs)
  {
    if b == [] {
      assert a + b == a;
    } else {
      var rest, last := b[..|b| - 1], b[|b| - 1];
      ExceptionAppend(a, rest, ledgerSide, cs);
      assert a + b == (a + rest) + [last];
      ExceptionSnoc(a + rest, last, ledgerSide, cs);
    }
  }

  lemma {:induction false} PassRaisesBankExceptions(banks: seq<BankTransaction>, ledgers: seq<LedgerTransaction>, config: ReconciliationConfig,
                                                    n: nat, cs: set<Name>)
    requires n <= |banks|
    ensures ExceptionTotal(After(banks, ledgers, config, n).exceptions, true, cs) == 0.0
  {
    hide After, Judge, Evidence, IdSet, Mark, KindOf;
    if n == 0 {
      AfterNone(banks, ledgers, config);
    } else {
      PassRaisesBankExceptions(banks, ledgers, config, n - 1, cs);
      AfterStep(banks, ledgers, config, n);
      var p := After(banks, ledgers, config, n - 1);
      var v := VerdictAt(banks, ledgers, config, n - 1);
      if !IsMatch(v) { ExceptionSnoc(p.exceptions, ExceptionOf(banks[n - 1], v), true, cs); }
    }
  }

  /** After the pass, a ledger id carries a status only if it was consumed. */
  lemma StatusOnlyIfUsed(banks: seq<BankTransaction>, ledgers: seq<LedgerTransaction>, config: ReconciliationConfig)
    requires UniqueIds(ledgers) && Disjoint(banks, ledgers)
    ensures var p := After(banks, ledgers, config, |banks|);
            forall l :: l in ledgers ==> (l.id in p.statuses ==> l.id in p.used)
  {
    hide After, IdSet, UniqueIds;
    PassKeeps(banks, ledgers, config, |banks|);
    assert banks[..|banks|] == banks;
    forall l | l in ledgers ensures l.id in IdSet(ledgers) { MemberId(ledgers, l); }
  }

  /** Over any set of currencies, what the bank shows beyond the ledger is what the bank
      exceptions carry, less what the unmatched ledger transactions carry, less the fees. */
  lemma MoneyIsConserved(banks: seq<BankTransaction>, ledgers: seq<LedgerTransaction>, config: ReconciliationConfig, r: Result, cs: set<Name>)
    requires Completed(banks, ledgers, config, r) && Disjoint(banks, ledgers)
    ensures BankTotal(banks, cs) - LedgerTotal(ledgers, cs)
         == ExceptionTotal(r.exceptions, false, cs) - ExceptionTotal(r.exceptions, true, cs) - FeeTotal(banks, r.matches, cs)
  {
    hide After, Sweep, ClashFree, UniqueIds, UniqueBankIds, IdSet, InCurrency, AmountOf, ExceptionTotal, FeeTotal, Leftover, Completed, Disjoint;
    CompletedRun(banks, ledgers, config, r);
    var p := After(banks, ledgers, config, |banks|);
    var inside := InCurrency(ledgers, cs);
    PassBalances(banks, ledgers, config, |banks|, cs);
    assert banks[..|banks|] == banks && ledgers[..|ledgers|] == ledgers;
    SweepExact(p, ledgers, |ledgers|);
    StatusOnlyIfUsed(banks, ledgers, config);
    LeftoverTotals(p, ledgers, ledgers, cs);
    ExceptionAppend(p.exceptions, Leftover(p, ledgers), true, cs);
    ExceptionAppend(p.exceptions, Leftover(p, ledgers), false, cs);
    PassRaisesBankExceptions(banks, ledgers, config, |banks|, cs);
    AmountInCurrency(ledgers, ledgers, cs);
    CurrencyIds(ledgers, cs);
    AmountUnion(ledgers, p.used * inside, Free(p, ledgers) * inside);
    assert p.used * inside + Free(p, ledgers) * inside == inside;
  }

  lemma CurrencyIds(ledgers: seq<LedgerTransaction>, cs: set<Name>)
    ensures InCurrency(ledgers, cs) <= IdSet(ledgers)
  {
  }
}
