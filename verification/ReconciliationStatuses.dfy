/** Every transaction of a reconciliation run is accounted for exactly once. */
module ReconciliationStatuses {
  import opened Names
  import opened Sequences
  import opened Reconciliation
  import opened GroupSearch
  import opened ReconciliationRuns
  import opened ReconciliationTotals

  ghost function One(condition: bool): nat { if condition then 1 else 0 }

  /** How many matches were made for the bank transaction `id`. */
  ghost function MatchLeads(matches: seq<MatchGroup>, id: Name): nat {
    if matches == [] then 0
    else MatchLeads(matches[..|matches| - 1], id) + One(matches[|matches| - 1].bankId == id)
  }

  /** How many exceptions were raised for the transaction `id`. */
  ghost function ExceptionLeads(es: seq<ReconciliationException>, id: Name): nat {
    if es == [] then 0
    else ExceptionLeads(es[..|es| - 1], id) + One(es[|es| - 1].sources != [] && es[|es| - 1].sources[0] == id)
  }

  /** How often the matches list the ledger transaction `id`. */
  ghost function Consumptions(matches: seq<MatchGroup>, id: Name): nat {
    if matches == [] then 0
    else Consumptions(matches[..|matches| - 1], id) + multiset(matches[|matches| - 1].ledgerIds)[id]
  }

  ghost predicate PendingLead(es: seq<ReconciliationException>, id: Name) {
    exists e :: e in es && e.code == PendingTransaction && e.sources == [id]
  }

  // ---- counting ----------------------------------------------------------------------------------

  lemma MatchSnoc(matches: seq<MatchGroup>, m: MatchGroup, id: Name)
    ensures MatchLeads(matches + [m], id) == MatchLeads(matches, id) + One(m.bankId == id)
    ensures Consumptions(matches + [m], id) == Consumptions(matches, id) + multiset(m.ledgerIds)[id]
  {
    assert (matches + [m])[..|matches|] == matches;
  }

  lemma ExceptionLeadsSnoc(es: seq<ReconciliationException>, e: ReconciliationException, id: Name)
    ensures ExceptionLeads(es + [e], id) == ExceptionLeads(es, id) + One(e.sources != [] && e.sources[0] == id)
  {
    assert (es + [e])[..|es|] == es;
  }

  lemma {:induction false} ExceptionLeadsAppend(a: seq<ReconciliationException>, b: seq<ReconciliationException>, id: Name)
    ensures ExceptionLeads(a + b, id) == ExceptionLeads(a, id) + ExceptionLeads(b, id)
  {
    if b == [] {
      assert a + b == a;
    } else {
      var rest, last := b[..|b| - 1], b[|b| - 1];
      ExceptionLeadsAppend(a, rest, id);
      assert a + b == (a + rest) + [last];
      ExceptionLeadsSnoc(a + rest, last, id);
    }
  }

  lemma {:induction false} CountOfDistinct(s: seq<Name>, id: Name)
    requires Distinct(s)
    ensures multiset(s)[id] == One(id in s)
  {
    if s != [] {
      var rest, last := s[..|s| - 1], s[|s| - 1];
      assert s == rest + [last];
      CountOfDistinct(rest, id);
    }
  }

  lemma GroupCount(g: seq<LedgerTransaction>, id: Name)
    requires UniqueIds(g)
    ensures multiset(Ids(g))[id] == One(id in IdSet(g))
  {
    CountOfDistinct(Ids(g), id);
    IdsAsSet(g);
    assert id in Ids(g) <==> id in set x | x in Ids(g);
  }

  // ---- the pass ------------------------------------------------------------------------------------

  ghost predicate Accounted(p: Progress, bankIds: set<Name>, id: Name) {
    && MatchLeads(p.matches, id) + ExceptionLeads(p.exceptions, id) == One(id in bankIds)
    && Consumptions(p.matches, id) == One(id in p.used)
    && (id in p.statuses && p.statuses[id] == Matched <==> MatchLeads(p.matches, id) > 0 || id in p.used)
    && (id in p.statuses && p.statuses[id] == ExcludedByPolicy <==> PendingLead(p.exceptions, id))
  }

  lemma VerdictCount(bank: BankTransaction, ledgers: seq<LedgerTransaction>, config: ReconciliationConfig, used: set<Name>, id: Name)
    requires UniqueIds(ledgers)
    ensures var g := GroupOf(Judge(bank, ledgers, config, used)); multiset(Ids(g))[id] == One(id in IdSet(g))
  {
    hide Remaining, SearchFrom, Candidates, Fits, Sums, NoCandidate, IdSet;
    var v := Judge(bank, ledgers, config, used);
    if v.Group? {
      SearchVerdict(bank, ledgers, config, used);
      SubseqUnique(v.group, Remaining(bank, ledgers, config, used));
    }
    GroupCount(GroupOf(v), id);
  }

  lemma RecordCounts(p: Progress, bank: BankTransaction, v: Verdict, id: Name)
    requires multiset(Ids(GroupOf(v)))[id] == One(id in IdSet(GroupOf(v)))
    ensures var q := Record(p, bank, v);
            && MatchLeads(q.matches, id) == MatchLeads(p.matches, id) + One(IsMatch(v) && id == bank.id)
            && ExceptionLeads(q.exceptions, id) == ExceptionLeads(p.exceptions, id) + One(!IsMatch(v) && id == bank.id)
            && Consumptions(q.matches, id) == Consumptions(p.matches, id) + One(id in IdSet(GroupOf(v)))
  {
    hide Evidence, KindOf, IdSet, Mark, Ids, MatchLeads, ExceptionLeads, Consumptions;
    if IsMatch(v) {
      MatchSnoc(p.matches, MatchOf(bank, v), id);
    } else {
      ExceptionLeadsSnoc(p.exceptions, ExceptionOf(bank, v), id);
      EmptyIds();
    }
  }

  lemma RecordPending(p: Progress, bank: BankTransaction, v: Verdict, id: Name)
    ensures PendingLead(Record(p, bank, v).exceptions, id)
       <==> PendingLead(p.exceptions, id) || (v.Pending? && id == bank.id)
  {
    hide Evidence, KindOf, IdSet, Mark, Ids;
    var es := Record(p, bank, v).exceptions;
    if !IsMatch(v) {
      var last := ExceptionOf(bank, v);
      assert es == p.exceptions + [last] && last in es;
      assert forall e :: e in es <==> e in p.exceptions || e == last;
      if v.Pending? && id == bank.id { assert last.code == PendingTransaction && last.sources == [id]; }
      if e :| e in p.exceptions && e.code == PendingTransaction && e.sources == [id] { assert e in es; }
    }
  }

  lemma RecordStatus(p: Progress, bank: BankTransaction, v: Verdict, id: Name)
    ensures var q := Record(p, bank, v).statuses;
            && (id in q <==> id in p.statuses || id == bank.id || id in IdSet(GroupOf(v)))
            && (id in q ==> q[id] == if id in IdSet(GroupOf(v)) then Matched
                                     else if id == bank.id then StatusOf(v) else p.statuses[id])
  {
    hide Evidence, KindOf, IdSet, Ids;
  }

  /** `id` is a bank id or a ledger id, not both, and is consumed at most once. */
  ghost predicate Sorted(p: Progress, bankIds: set<Name>, bank: BankTransaction, taken: set<Name>, id: Name) {
    && (id in p.statuses <==> id in bankIds || id in p.used)
    && (id in p.used || id in taken ==> id !in bankIds && id != bank.id)
    && !(id in p.used && id in taken)
    && (id == bank.id ==> id !in bankIds)
  }

  lemma RecordAccounts(p: Progress, bankIds: set<Name>, bank: BankTransaction, v: Verdict, id: Name)
    requires Accounted(p, bankIds, id) && Sorted(p, bankIds, bank, IdSet(GroupOf(v)), id)
    requires multiset(Ids(GroupOf(v)))[id] == One(id in IdSet(GroupOf(v)))
    ensures Accounted(Record(p, bank, v), bankIds + {bank.id}, id)
  {
    hide Record, IdSet, GroupOf, MatchLeads, ExceptionLeads, Consumptions, PendingLead, Ids, MatchedIds, Mark;
    RecordShape(p, bank, v);
    RecordCounts(p, bank, v, id);
    RecordStatus(p, bank, v, id);
    RecordPending(p, bank, v, id);
    if !IsMatch(v) { NoGroupTaken(v); }
  }

  lemma VerdictSorted(p: Progress, bankIds: set<Name>, allBankIds: set<Name>, bank: BankTransaction,
                      ledgers: seq<LedgerTransaction>, config: ReconciliationConfig, id: Name)
    requires UniqueIds(ledgers) && Kept(p, bankIds, ledgers)
    requires bankIds <= allBankIds && bank.id in allBankIds && allBankIds !! IdSet(ledgers)
    requires bank.id !in p.statuses
    ensures Sorted(p, bankIds, bank, IdSet(GroupOf(Judge(bank, ledgers, config, p.used))), id)
  {
    hide Judge, IdSet, UniqueIds, GroupOf, AmountOf, FeePart, Available, KindOf, MatchedIds;
    VerdictTakes(bank, ledgers, config, p.used);
    AvailableIds(bank, ledgers, config, p.used);
    var taken := IdSet(GroupOf(Judge(bank, ledgers, config, p.used)));
    assert taken <= IdSet(ledgers) - p.used;
    assert id in p.statuses <==> id in p.statuses.Keys;
  }

  lemma {:induction false} PassAccounts(banks: seq<BankTransaction>, ledgers: seq<LedgerTransaction>, config: ReconciliationConfig, n: nat, id: Name)
    requires UniqueIds(ledgers) && n <= |banks| && Disjoint(banks, ledgers) && ClashFree(banks, ledgers, config, n)
    ensures Accounted(After(banks, ledgers, config, n), BankIds(banks[..n]), id)
  {
    hide After, Judge, Record, UniqueIds, Kept, BankIds, IdSet;
    if n == 0 {
      AfterNone(banks, ledgers, config);
      NoBankIds();
    } else {
      PassAccounts(banks, ledgers, config, n - 1, id);
      PassKeeps(banks, ledgers, config, n - 1);
      AfterStep(banks, ledgers, config, n);
      BankIdsPrefix(banks, n - 1);
      BankIdsSnoc(banks, n);
      var p, bank := After(banks, ledgers, config, n - 1), banks[n - 1];
      VerdictSorted(p, BankIds(banks[..n - 1]), BankIds(banks), bank, ledgers, config, id);
      VerdictCount(bank, ledgers, config, p.used, id);
      RecordAccounts(p, BankIds(banks[..n - 1]), bank, Judge(bank, ledgers, config, p.used), id);
    }
  }

  lemma NoBankIds()
    ensures BankIds([]) == {}
  {
  }

  lemma BankIdsSnoc(banks: seq<BankTransaction>, n: nat)
    requires 0 < n <= |banks|
    ensures BankIds(banks[..n]) == BankIds(banks[..n - 1]) + {banks[n - 1].id}
  {
    assert banks[..n][..n - 1] == banks[..n - 1];
  }

  lemma BankIdsPrefix(banks: seq<BankTransaction>, n: nat)
    requires n < |banks|
    ensures BankIds(banks[..n]) <= BankIds(banks) && banks[n].id in BankIds(banks)
  {
    hide BankIds;
    forall id | id in BankIds(banks[..n]) ensures id in BankIds(banks) {
      BankIdsContains(banks[..n], id);
      BankIdsContains(banks, id);
      var i :| 0 <= i < n && banks[..n][i].id == id;
      assert banks[i].id == id;
    }
    BankIdsContains(banks, banks[n].id);
  }

  // ---- the whole run ----------------------------------------------------------------------------------

  lemma {:induction false} LeftoverLeads(p: Progress, ledgers: seq<LedgerTransaction>, id: Name)
    requires UniqueIds(ledgers)
    requires forall l :: l in ledgers ==> (l.id in p.statuses ==> l.id in p.used)
    ensures ExceptionLeads(Leftover(p, ledgers), id) == One(id in Free(p, ledgers))
  {
    if ledgers != [] {
      hide IdSet, ExceptionLeads, UniqueIds;
      var rest, last := ledgers[..|ledgers| - 1], ledgers[|ledgers| - 1];
      assert ledgers == rest + [last] && last in ledgers;
      LeftoverLeads(p, rest, id);
      if Unreported(p, last) {
        ExceptionLeadsSnoc(Leftover(p, rest), LedgerException(last), id);
      } else {
        assert Leftover(p, ledgers) == Leftover(p, rest);
      }
    }
  }

  /** Bank ids and ledger ids apart, each bank transaction leads one match or one exception,
      each unconsumed ledger transaction leads one exception, and nothing else leads one;
      and a ledger transaction is listed by at most one match, once. */
  lemma EveryTransactionOnce(banks: seq<BankTransaction>, ledgers: seq<LedgerTransaction>, config: ReconciliationConfig, r: Result, id: Name)
    requires Completed(banks, ledgers, config, r) && Disjoint(banks, ledgers)
    ensures MatchLeads(r.matches, id) + ExceptionLeads(r.exceptions, id)
         == One(id in BankIds(banks)) + One(id in IdSet(ledgers) - MatchedIds(r.matches))
    ensures MatchLeads(r.matches, id) > 0 ==> id in BankIds(banks)
    ensures Consumptions(r.matches, id) == One(id in MatchedIds(r.matches))
  {
    hide After, Sweep, ClashFree, UniqueIds, UniqueBankIds, IdSet, BankIds, Completed, Disjoint, MatchLeads, ExceptionLeads,
         Consumptions, Leftover, MatchedIds, PendingLead;
    CompletedRun(banks, ledgers, config, r);
    var p := After(banks, ledgers, config, |banks|);
    assert banks[..|banks|] == banks && ledgers[..|ledgers|] == ledgers;
    PassAccounts(banks, ledgers, config, |banks|, id);
    SweepExact(p, ledgers, |ledgers|);
    StatusOnlyIfUsed(banks, ledgers, config);
    LeftoverLeads(p, ledgers, id);
    ExceptionLeadsAppend(p.exceptions, Leftover(p, ledgers), id);
  }

  /** Exactly the bank and ledger ids carry a status; MATCHED marks the members of matches
      and EXCLUDED_BY_POLICY the bank transactions set aside as pending. */
  lemma StatusesAreExact(banks: seq<BankTransaction>, ledgers: seq<LedgerTransaction>, config: ReconciliationConfig, r: Result, id: Name)
    requires Completed(banks, ledgers, config, r) && Disjoint(banks, ledgers)
    ensures id in r.statuses <==> id in BankIds(banks) + IdSet(ledgers)
    ensures (id in r.statuses && r.statuses[id] == Matched) <==> MatchLeads(r.matches, id) > 0 || id in MatchedIds(r.matches)
    ensures (id in r.statuses && r.statuses[id] == ExcludedByPolicy) <==> PendingLead(r.exceptions, id)
  {
    hide After, Sweep, ClashFree, UniqueIds, UniqueBankIds, IdSet, BankIds, Completed, Disjoint, MatchLeads, ExceptionLeads,
         Consumptions, Leftover, MatchedIds, PendingLead, ReportedBy;
    CompletedRun(banks, ledgers, config, r);
    var p := After(banks, ledgers, config, |banks|);
    assert banks[..|banks|] == banks && ledgers[..|ledgers|] == ledgers;
    PassAccounts(banks, ledgers, config, |banks|, id);
    PassKeeps(banks, ledgers, config, |banks|);
    SweepExact(p, ledgers, |ledgers|);
    StatusOnlyIfUsed(banks, ledgers, config);
    ReportedIds(p, ledgers, id);
    SamePending(p, ledgers, id);
  }

  lemma ReportedIds(p: Progress, ledgers: seq<LedgerTransaction>, id: Name)
    requires forall l :: l in ledgers ==> (l.id in p.statuses ==> l.id in p.used)
    ensures ReportedBy(p, ledgers, |ledgers|, id) <==> id in IdSet(ledgers) && id !in p.used
  {
    if id in IdSet(ledgers) && id !in p.used {
      var l :| l in ledgers && l.id == id;
      var k :| 0 <= k < |ledgers| && ledgers[k] == l;
      assert Unreported(p, ledgers[k]);
    }
  }

  lemma SamePending(p: Progress, ledgers: seq<LedgerTransaction>, id: Name)
    ensures PendingLead(p.exceptions + Leftover(p, ledgers), id) <==> PendingLead(p.exceptions, id)
  {
    hide Leftover;
    var all := p.exceptions + Leftover(p, ledgers);
    forall e | e in Leftover(p, ledgers) ensures e.code == UnmatchedLedger {
      LeftoverMembers(p, ledgers, e);
    }
    assert forall e :: e in all <==> e in p.exceptions || e in Leftover(p, ledgers);
  }

  // ---- refusals and shared ids -----------------------------------------------------------------------------

  lemma {:induction false} UniqueMeansClashFree(banks: seq<BankTransaction>, ledgers: seq<LedgerTransaction>, config: ReconciliationConfig, n: nat)
    requires UniqueIds(ledgers) && Disjoint(banks, ledgers) && UniqueBankIds(banks) && n <= |banks|
    ensures ClashFree(banks, ledgers, config, n)
  {
    hide After, Judge;
    if n > 0 {
      UniqueMeansClashFree(banks, ledgers, config, n - 1);
      PassKeeps(banks, ledgers, config, n - 1);
      BankIdsContains(banks[..n - 1], banks[n - 1].id);
      BankIdsContains(banks, banks[n - 1].id);
    }
  }

  /** With bank ids and ledger ids apart, a run is refused exactly for a repeated id. */
  lemma RefusedExactlyForRepeatedIds(banks: seq<BankTransaction>, ledgers: seq<LedgerTransaction>, config: ReconciliationConfig)
    requires Disjoint(banks, ledgers)
    ensures Run(banks, ledgers, config) == Failed(LedgerIdsNotUnique) <==> !UniqueIds(ledgers)
    ensures Run(banks, ledgers, config) == Failed(BankIdsNotUnique) <==> UniqueIds(ledgers) && !UniqueBankIds(banks)
  {
    hide After, Sweep, ClashFree, Disjoint;
    assert Distinct(Ids(ledgers)) <==> UniqueIds(ledgers) by {
      if Distinct(Ids(ledgers)) {
        forall i, j | 0 <= i < j < |ledgers| ensures ledgers[i].id != ledgers[j].id {
          assert Ids(ledgers)[i] != Ids(ledgers)[j];
        }
      }
    }
    if UniqueIds(ledgers) {
      if ClashFree(banks, ledgers, config, |banks|) {
        ClashFreeBanks(banks, ledgers, config, |banks|);
        assert banks[..|banks|] == banks;
      }
      if UniqueBankIds(banks) { UniqueMeansClashFree(banks, ledgers, config, |banks|); }
    }
  }

  /** In any finished run, ids apart or not: a ledger transaction is reported exactly when
      no match consumed it and no bank transaction carries its id. */
  lemma LedgerReportedExactlyWhen(banks: seq<BankTransaction>, ledgers: seq<LedgerTransaction>, config: ReconciliationConfig, r: Result,
                                  l: LedgerTransaction)
    requires Completed(banks, ledgers, config, r) && l in ledgers
    ensures LedgerException(l) in r.exceptions <==> l.id !in MatchedIds(r.matches) && l.id !in BankIds(banks)
  {
    hide After, Sweep, ClashFree, UniqueBankIds, IdSet, BankIds, Completed, Leftover, MatchedIds, UniqueIds, ExceptionLeads;
    CompletedRun(banks, ledgers, config, r);
    var p := After(banks, ledgers, config, |banks|);
    assert banks[..|banks|] == banks && ledgers[..|ledgers|] == ledgers;
    PassKeeps(banks, ledgers, config, |banks|);
    SweepExact(p, ledgers, |ledgers|);
    LeftoverMembers(p, ledgers, LedgerException(l));
    NoLedgerExceptionYet(banks, ledgers, config, |banks|, l);
    if m :| m in ledgers && Unreported(p, m) && LedgerException(l) == LedgerException(m) {
      assert l.id == LedgerException(l).sources[0] == m.id;
    }
    assert forall e :: e in r.exceptions <==> e in p.exceptions || e in Leftover(p, ledgers);
  }

  lemma {:induction false} LeftoverMembers(p: Progress, ledgers: seq<LedgerTransaction>, e: ReconciliationException)
    ensures e in Leftover(p, ledgers) <==> exists l :: l in ledgers && Unreported(p, l) && e == LedgerException(l)
  {
    if ledgers != [] {
      var rest, last := ledgers[..|ledgers| - 1], ledgers[|ledgers| - 1];
      assert ledgers == rest + [last];
      assert forall l :: l in ledgers <==> l in rest || l == last;
      LeftoverMembers(p, rest, e);
    }
  }

  lemma {:induction false} NoLedgerExceptionYet(banks: seq<BankTransaction>, ledgers: seq<LedgerTransaction>, config: ReconciliationConfig,
                                                n: nat, l: LedgerTransaction)
    requires n <= |banks|
    ensures LedgerException(l) !in After(banks, ledgers, config, n).exceptions
  {
    hide After, Judge, Evidence, IdSet, Mark, KindOf;
    if n == 0 {
      AfterNone(banks, ledgers, config);
    } else {
      NoLedgerExceptionYet(banks, ledgers, config, n - 1, l);
      AfterStep(banks, ledgers, config, n);
    }
  }

  /** A shared id hides a ledger transaction: here it is neither matched nor reported. */
  lemma SharedIdHidesALedgerTransaction()
    ensures var id, usd := Name("x"), Name("USD");
            var bank := BankRow(id, 1.0, usd, 0, [], false, 0.0);
            var ledger := LedgerTransaction(id, 2.0, usd, 0, [], Name("090"));
            var outcome := Run([bank], [ledger], ConfigRow(3, false, 3, 0.0));
            && outcome.Reconciled?
            && ledger.id !in MatchedIds(outcome.result.matches)
            && LedgerException(ledger) !in outcome.result.exceptions
  {
    var id, usd := Name("x"), Name("USD");
    var bank: BankTransaction := BankRow(id, 1.0, usd, 0, [], false, 0.0);
    var ledger := LedgerTransaction(id, 2.0, usd, 0, [], Name("090"));
    var config: ReconciliationConfig := ConfigRow(3, false, 3, 0.0);
    hide Judge, Sweep;
    AfterNone([bank], [ledger], config);
    assert ClashFree([bank], [ledger], config, 0);
    assert ClashFree([bank], [ledger], config, 1);
    var r := Run([bank], [ledger], config).result;
    LedgerReportedExactlyWhen([bank], [ledger], config, r, ledger);
    BankIdsContains([bank], id);
    assert [bank][0].id == id;
    NoMatch(bank, ledger, config);
    AfterStep([bank], [ledger], config, 1);
    CompletedRun([bank], [ledger], config, r);
  }

  lemma NoMatch(bank: BankTransaction, ledger: LedgerTransaction, config: ReconciliationConfig)
    requires !SetAside(bank, config) && bank.fee == 0.0 && ledger.amount != bank.amount
    ensures Judge(bank, [ledger], config, {}) == Unmatched
  {
    UnmatchedMeaning(bank, [ledger], config, {});
    forall ids | Fits(bank, [ledger], config, {}, ids) ensures !(2 <= |ids| <= config.maxAggregateSize) {
      SubsetCardinality(ids, {ledger.id});
    }
  }

  // ---- evidence ------------------------------------------------------------------------------------------

  lemma {:induction false} DedupMeaning(ids: seq<Name>, id: Name)
    ensures Distinct(Dedup(ids)) && (id in Dedup(ids) <==> id in ids)
  {
    if ids != [] {
      var rest, last := ids[..|ids| - 1], ids[|ids| - 1];
      DedupMeaning(rest, id);
      DedupMeaning(rest, last);
      assert ids == rest + [last];
    }
  }

  lemma {:induction false} LedgerEvidenceMeaning(ledgers: seq<LedgerTransaction>, id: Name)
    ensures id in LedgerEvidence(ledgers) <==> exists l :: l in ledgers && id in l.evidence
  {
    if ledgers != [] {
      LedgerEvidenceMeaning(ledgers[1..], id);
      assert ledgers == [ledgers[0]] + ledgers[1..];
      assert forall l :: l in ledgers <==> l == ledgers[0] || l in ledgers[1..];
    }
  }

  /** A match or exception keeps exactly the evidence of the transactions it is about, each id once. */
  lemma EvidenceIsExact(bank: BankTransaction, ledgers: seq<LedgerTransaction>, id: Name)
    ensures Distinct(Evidence(bank, ledgers))
    ensures id in Evidence(bank, ledgers) <==> id in bank.evidence || exists l :: l in ledgers && id in l.evidence
  {
    hide Dedup, LedgerEvidence;
    DedupMeaning(bank.evidence + LedgerEvidence(ledgers), id);
    LedgerEvidenceMeaning(ledgers, id);
  }
}
