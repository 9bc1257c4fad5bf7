/** What a whole reconciliation run guarantees, read off its result alone. */
module ReconciliationRuns {
  import opened Names
  import opened Sequences
  import opened Reconciliation
  import opened GroupSearch

  ghost function BankIds(banks: seq<BankTransaction>): set<Name> {
    if banks == [] then {} else BankIds(banks[..|banks| - 1]) + {banks[|banks| - 1].id}
  }

  lemma {:induction false} BankIdsContains(banks: seq<BankTransaction>, id: Name)
    ensures id in BankIds(banks) <==> exists i :: 0 <= i < |banks| && banks[i].id == id
  {
    if banks != [] {
      var rest, last := banks[..|banks| - 1], banks[|banks| - 1];
      BankIdsContains(rest, id);
      if i :| 0 <= i < |banks| && banks[i].id == id {
        assert i < |rest| ==> rest[i].id == id;
      }
      if i :| 0 <= i < |rest| && rest[i].id == id {
        assert banks[i].id == id;
      }
    }
  }

  ghost function IdsOf(m: MatchGroup): set<Name> {
    set id | id in m.ledgerIds
  }

  /** The ledger transactions consumed by `matches`. */
  ghost function MatchedIds(matches: seq<MatchGroup>): set<Name> {
    if matches == [] then {}
    else MatchedIds(matches[..|matches| - 1]) + IdsOf(matches[|matches| - 1])
  }

  ghost predicate UniqueBankIds(banks: seq<BankTransaction>) {
    forall i, j :: 0 <= i < j < |banks| ==> banks[i].id != banks[j].id
  }

  ghost predicate Disjoint(banks: seq<BankTransaction>, ledgers: seq<LedgerTransaction>) {
    BankIds(banks) !! IdSet(ledgers)
  }

  ghost predicate Completed(banks: seq<BankTransaction>, ledgers: seq<LedgerTransaction>, config: ReconciliationConfig, r: Result) {
    Run(banks, ledgers, config) == Reconciled(r)
  }

  // ---- one step ---------------------------------------------------------------------------

  ghost function FeePart(bank: BankTransaction, verdict: Verdict): Money {
    if IsMatch(verdict) && KindOf(bank, verdict) == Fee then bank.fee else 0.0
  }

  lemma {:induction false} SingletonSubseq(l: LedgerTransaction, s: seq<LedgerTransaction>)
    requires l in s
    ensures Subseq([l], s)
  {
    if s[0] != l { SingletonSubseq(l, s[1..]); }
  }

  /** What a verdict consumes is free, each transaction once, and adds up to the bank
      amount plus the fee of a fee match. */
  lemma VerdictTakes(bank: BankTransaction, ledgers: seq<LedgerTransaction>, config: ReconciliationConfig, used: set<Name>)
    requires UniqueIds(ledgers)
    ensures var v := Judge(bank, ledgers, config, used);
            var taken := IdSet(GroupOf(v));
            && taken <= Available(bank, ledgers, config, used)
            && |taken| == |GroupOf(v)|
            && (IsMatch(v) ==> AmountOf(ledgers, taken) == bank.amount + FeePart(bank, v))
            && (IsMatch(v) && KindOf(bank, v) == Fee ==> 0.0 < bank.fee <= config.feeTolerance)
  {
    hide Judge, AmountOf, Remaining, Candidates, SearchFrom;
    var v := Judge(bank, ledgers, config, used);
    match v {
      case Single(ledger) =>
        SingleMeaning(bank, ledgers, config, used, ledger);
        SingletonSubseq(ledger, ledgers);
        SubseqAmount([ledger], ledgers);
        assert Total([ledger]) == ledger.amount;
      case Group(group) =>
        GroupMeaning(bank, ledgers, config, used, IdSet(group));
        GroupDistinct(bank, ledgers, config, used);
      case _ => EmptyIds();
    }
  }

  lemma EmptyIds()
    ensures IdSet([]) == {}
  {
  }

  lemma GroupDistinct(bank: BankTransaction, ledgers: seq<LedgerTransaction>, config: ReconciliationConfig, used: set<Name>)
    requires UniqueIds(ledgers) && Judge(bank, ledgers, config, used).Group?
    ensures var g := Judge(bank, ledgers, config, used).group; |IdSet(g)| == |g|
  {
    hide Remaining, SearchFrom, Candidates, Fits, Sums, NoCandidate, IdSet, Subseq;
    SearchVerdict(bank, ledgers, config, used);
  }

  lemma IdsAsSet(g: seq<LedgerTransaction>)
    ensures (set id | id in Ids(g)) == IdSet(g)
  {
    forall l | l in g ensures l.id in Ids(g) {
      var i :| 0 <= i < |g| && g[i] == l;
      assert Ids(g)[i] == l.id;
    }
  }

  // ---- what the pass keeps ------------------------------------------------------------------

  ghost predicate Kept(p: Progress, bankIds: set<Name>, ledgers: seq<LedgerTransaction>) {
    p.used == MatchedIds(p.matches) && p.used <= IdSet(ledgers) && p.statuses.Keys == bankIds + p.used
  }

  lemma MarkKeys(statuses: map<Name, Status>, id: Name, status: Status, taken: set<Name>)
    ensures (statuses[id := status] + Mark(taken)).Keys == statuses.Keys + {id} + taken
  {
  }

  lemma RecordShape(p: Progress, bank: BankTransaction, v: Verdict)
    ensures var q := Record(p, bank, v);
            && q.used == p.used + IdSet(GroupOf(v))
            && q.statuses.Keys == p.statuses.Keys + {bank.id} + IdSet(GroupOf(v))
            && MatchedIds(q.matches) == MatchedIds(p.matches) + IdSet(GroupOf(v))
  {
    hide Evidence, KindOf, IdSet, Mark;
    MarkKeys(p.statuses, bank.id, StatusOf(v), IdSet(GroupOf(v)));
    if IsMatch(v) {
      IdsAsSet(GroupOf(v));
      assert IdsOf(MatchOf(bank, v)) == IdSet(GroupOf(v));
    } else {
      EmptyIds();
    }
  }

  lemma RecordKeeps(p: Progress, bankIds: set<Name>, bank: BankTransaction, ledgers: seq<LedgerTransaction>, config: ReconciliationConfig)
    requires UniqueIds(ledgers) && Kept(p, bankIds, ledgers)
    ensures Kept(Record(p, bank, Judge(bank, ledgers, config, p.used)), bankIds + {bank.id}, ledgers)
  {
    hide Judge, Record, IdSet, UniqueIds, GroupOf, AmountOf, FeePart, Available;
    RecordShape(p, bank, Judge(bank, ledgers, config, p.used));
    VerdictTakes(bank, ledgers, config, p.used);
    AvailableIds(bank, ledgers, config, p.used);
  }

  lemma {:induction false} PassKeeps(banks: seq<BankTransaction>, ledgers: seq<LedgerTransaction>, config: ReconciliationConfig, n: nat)
    requires UniqueIds(ledgers) && n <= |banks|
    ensures Kept(After(banks, ledgers, config, n), BankIds(banks[..n]), ledgers)
  {
    hide After, Judge, Record, UniqueIds;
    if n == 0 {
      AfterNone(banks, ledgers, config);
    } else {
      PassKeeps(banks, ledgers, config, n - 1);
      AfterStep(banks, ledgers, config, n);
      RecordKeeps(After(banks, ledgers, config, n - 1), BankIds(banks[..n - 1]), banks[n - 1], ledgers, config);
      assert banks[..n][..n - 1] == banks[..n - 1];
    }
  }

  lemma AvailableIds(bank: BankTransaction, ledgers: seq<LedgerTransaction>, config: ReconciliationConfig, used: set<Name>)
    ensures Available(bank, ledgers, config, used) <= IdSet(ledgers) - used
  {
  }

  lemma {:induction false} UsedGrows(banks: seq<BankTransaction>, ledgers: seq<LedgerTransaction>, config: ReconciliationConfig, n: nat, m: nat)
    requires n <= m <= |banks|
    ensures After(banks, ledgers, config, n).used <= After(banks, ledgers, config, m).used
    decreases m
  {
    hide Judge, Evidence, After;
    if n < m {
      AfterStep(banks, ledgers, config, m);
      UsedGrows(banks, ledgers, config, n, m - 1);
    }
  }

  lemma {:induction false} ClashFreeBanks(banks: seq<BankTransaction>, ledgers: seq<LedgerTransaction>, config: ReconciliationConfig, n: nat)
    requires UniqueIds(ledgers) && n <= |banks| && ClashFree(banks, ledgers, config, n)
    ensures UniqueBankIds(banks[..n])
  {
    hide After;
    if n > 0 {
      ClashFreeBanks(banks, ledgers, config, n - 1);
      PassKeeps(banks, ledgers, config, n - 1);
      assert banks[..n] == banks[..n - 1] + [banks[n - 1]];
      forall i | 0 <= i < n - 1 ensures banks[i].id != banks[n - 1].id {
        BankIdsContains(banks[..n - 1], banks[i].id);
        assert banks[..n - 1][i].id == banks[i].id;
      }
    }
  }

  lemma {:induction false} SweepKeeps(p: Progress, ledgers: seq<LedgerTransaction>, n: nat)
    requires n <= |ledgers|
    ensures var q := Sweep(p, ledgers, n);
            && q.used == p.used && q.matches == p.matches
            && |p.exceptions| <= |q.exceptions| && q.exceptions[..|p.exceptions|] == p.exceptions
            && (forall k :: |p.exceptions| <= k < |q.exceptions| ==> q.exceptions[k].code == UnmatchedLedger)
            && (forall id :: id in p.statuses ==> id in q.statuses && q.statuses[id] == p.statuses[id])
  {
    if n > 0 { SweepKeeps(p, ledgers, n - 1); }
  }

  /** A finished run: unique ids on both sides, and its matches are those of the pass. */
  lemma CompletedRun(banks: seq<BankTransaction>, ledgers: seq<LedgerTransaction>, config: ReconciliationConfig, r: Result)
    requires Completed(banks, ledgers, config, r)
    ensures UniqueIds(ledgers) && UniqueBankIds(banks)
    ensures var p := After(banks, ledgers, config, |banks|);
            && r.matches == p.matches && MatchedIds(r.matches) == p.used && p.used <= IdSet(ledgers)
            && ClashFree(banks, ledgers, config, |banks|)
            && r == Result(p.matches, Sweep(p, ledgers, |ledgers|).exceptions, Sweep(p, ledgers, |ledgers|).statuses)
  {
    hide After, Sweep, ClashFree;
    assert UniqueIds(ledgers) by {
      forall i, j | 0 <= i < j < |ledgers| ensures ledgers[i].id != ledgers[j].id {
        assert Ids(ledgers)[i] != Ids(ledgers)[j];
      }
    }
    ClashFreeBanks(banks, ledgers, config, |banks|);
    assert banks[..|banks|] == banks;
    PassKeeps(banks, ledgers, config, |banks|);
    SweepKeeps(After(banks, ledgers, config, |banks|), ledgers, |ledgers|);
  }

  // ---- nothing matchable is left -----------------------------------------------------------------

  lemma {:induction false} UnmatchedOrigin(banks: seq<BankTransaction>, ledgers: seq<LedgerTransaction>, config: ReconciliationConfig,
                                           n: nat, e: ReconciliationException) returns (i: nat)
    requires n <= |banks| && e in After(banks, ledgers, config, n).exceptions && e.code == UnmatchedBank
    ensures i < n && e.sources == [banks[i].id]
    ensures VerdictAt(banks, ledgers, config, i) == Unmatched
    decreases n
  {
    hide Judge, Evidence, After, IdSet, Mark;
    AfterNone(banks, ledgers, config);
    AfterStep(banks, ledgers, config, n);
    var p := After(banks, ledgers, config, n - 1);
    if e in p.exceptions {
      i := UnmatchedOrigin(banks, ledgers, config, n - 1, e);
    } else {
      i := n - 1;
    }
  }

  lemma LaterFits(bank: BankTransaction, ledgers: seq<LedgerTransaction>, config: ReconciliationConfig,
                  early: set<Name>, late: set<Name>)
    requires early <= late
    requires NoCandidate(bank, ledgers, config, early) && NoGroupFits(bank, ledgers, config, early)
    ensures NoCandidate(bank, ledgers, config, late) && NoGroupFits(bank, ledgers, config, late)
  {
    hide AmountOf, AmountMatches;
    assert Available(bank, ledgers, config, late) <= Available(bank, ledgers, config, early);
    forall ids | Fits(bank, ledgers, config, late, ids) ensures !(2 <= |ids| <= config.maxAggregateSize) {
      assert Fits(bank, ledgers, config, early, ids);
    }
    forall l | l in ledgers ensures !IsCandidate(bank, ledgers, config, late, l) {
      assert !IsCandidate(bank, ledgers, config, early, l);
    }
  }

  /** When a run ends, a bank transaction reported as unmatched still has no candidate and
      no group among the ledger transactions that no match consumed. */
  lemma NothingMatchableIsLeft(banks: seq<BankTransaction>, ledgers: seq<LedgerTransaction>, config: ReconciliationConfig,
                               r: Result, i: nat, e: ReconciliationException)
    requires Completed(banks, ledgers, config, r) && i < |banks|
    requires e in r.exceptions && e.code == UnmatchedBank && banks[i].id in e.sources
    ensures NoCandidate(banks[i], ledgers, config, MatchedIds(r.matches))
    ensures NoGroupFits(banks[i], ledgers, config, MatchedIds(r.matches))
  {
    hide After, Sweep, ClashFree, NoCandidate, NoGroupFits, Judge;
    CompletedRun(banks, ledgers, config, r);
    var p := After(banks, ledgers, config, |banks|);
    SweepKeeps(p, ledgers, |ledgers|);
    var k :| 0 <= k < |r.exceptions| && r.exceptions[k] == e;
    assert e == p.exceptions[k];
    var j := UnmatchedOrigin(banks, ledgers, config, |banks|, e);
    assert banks[i].id == banks[j].id && i == j;
    UnmatchedMeaning(banks[i], ledgers, config, After(banks, ledgers, config, i).used);
    UsedGrows(banks, ledgers, config, i, |banks|);
    LaterFits(banks[i], ledgers, config, After(banks, ledgers, config, i).used, p.used);
  }

  // ---- every match was forced ----------------------------------------------------------------------

  lemma {:induction false} MatchOrigin(banks: seq<BankTransaction>, ledgers: seq<LedgerTransaction>, config: ReconciliationConfig,
                                       n: nat, k: nat) returns (i: nat)
    requires n <= |banks| && k < |After(banks, ledgers, config, n).matches|
    ensures i < n && IsMatch(VerdictAt(banks, ledgers, config, i))
    ensures After(banks, ledgers, config, n).matches[k] == MatchOf(banks[i], VerdictAt(banks, ledgers, config, i))
    ensures After(banks, ledgers, config, n).matches[..k] == After(banks, ledgers, config, i).matches
    decreases n
  {
    hide Judge, Evidence, After, IdSet, Mark, KindOf;
    AfterNone(banks, ledgers, config);
    AfterStep(banks, ledgers, config, n);
    var p, q := After(banks, ledgers, config, n - 1), After(banks, ledgers, config, n);
    if k < |p.matches| {
      i := MatchOrigin(banks, ledgers, config, n - 1, k);
      assert q.matches[..k] == p.matches[..k];
    } else {
      i := n - 1;
      assert q.matches[..k] == p.matches;
    }
  }

  /** Why a match was made, given what earlier matches had consumed. */
  ghost predicate Forced(bank: BankTransaction, ledgers: seq<LedgerTransaction>, config: ReconciliationConfig,
                         used: set<Name>, m: MatchGroup)
  {
    if m.kind == Aggregate then
      && NoCandidate(bank, ledgers, config, used)
      && Fits(bank, ledgers, config, used, IdsOf(m)) && 2 <= |IdsOf(m)| <= config.maxAggregateSize
      && forall other :: Fits(bank, ledgers, config, used, other) && 2 <= |other| <= |IdsOf(m)| ==> other == IdsOf(m)
    else
      exists l :: && IsCandidate(bank, ledgers, config, used, l) && m.ledgerIds == [l.id]
                  && (m.kind == Fee <==> l.amount != bank.amount)
                  && (m.kind == Exact <==> l.amount == bank.amount && l.date == bank.date)
                  && forall other :: IsCandidate(bank, ledgers, config, used, other) ==> other == l
  }

  /** Every match of a run was the only choice left by the matches listed before it. */
  lemma EveryMatchWasForced(banks: seq<BankTransaction>, ledgers: seq<LedgerTransaction>, config: ReconciliationConfig,
                            r: Result, k: nat) returns (i: nat)
    requires Completed(banks, ledgers, config, r) && k < |r.matches|
    ensures i < |banks| && r.matches[k].bankId == banks[i].id
    ensures r.matches[k].amount == banks[i].amount && r.matches[k].currency == banks[i].currency
    ensures Forced(banks[i], ledgers, config, MatchedIds(r.matches[..k]), r.matches[k])
  {
    hide After, Sweep, ClashFree, NoCandidate, Judge, Fits, Evidence, IsCandidate;
    CompletedRun(banks, ledgers, config, r);
    i := MatchOrigin(banks, ledgers, config, |banks|, k);
    PassKeeps(banks, ledgers, config, i);
    var used := After(banks, ledgers, config, i).used;
    var v := VerdictAt(banks, ledgers, config, i);
    IdsAsSet(GroupOf(v));
    assert IdsOf(r.matches[k]) == IdSet(GroupOf(v));
    match v {
      case Single(l) =>
        SingleMeaning(banks[i], ledgers, config, used, l);
        assert Ids([l]) == [l.id];
      case Group(g) => GroupMeaning(banks[i], ledgers, config, used, IdSet(g));
    }
  }
}
