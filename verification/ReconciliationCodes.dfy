/** Which exception a bank transaction leads, told by what earlier matches left to it, and what
    every match and exception of a run says. */
module ReconciliationCodes {
  import opened Names
  import opened Sequences
  import opened Reconciliation
  import opened GroupSearch
  import opened ReconciliationRuns
  import opened ReconciliationTotals
  import opened ReconciliationStatuses

  /** The ledger ids in the matches led by the first `i` bank transactions. */
  ghost function ConsumedBefore(banks: seq<BankTransaction>, matches: seq<MatchGroup>, i: nat): set<Name>
    requires i <= |banks|
  {
    if matches == [] then {}
    else
      var last := matches[|matches| - 1];
      ConsumedBefore(banks, matches[..|matches| - 1], i) + if last.bankId in BankIds(banks[..i]) then IdsOf(last) else {}
  }

  lemma LaterBankId(banks: seq<BankTransaction>, i: nat, n: nat)
    requires UniqueBankIds(banks) && i <= |banks| && n < |banks|
    ensures banks[n].id in BankIds(banks[..i]) <==> n < i
  {
    BankIdsContains(banks[..i], banks[n].id);
    if n < i { assert banks[..i][n].id == banks[n].id; }
  }

  /** What a later pass has consumed on behalf of the first `i` bank transactions. */
  lemma {:induction false} ConsumedIsUsed(banks: seq<BankTransaction>, ledgers: seq<LedgerTransaction>, config: ReconciliationConfig,
                                          i: nat, n: nat)
    requires UniqueIds(ledgers) && UniqueBankIds(banks) && i <= n <= |banks|
    ensures ConsumedBefore(banks, After(banks, ledgers, config, n).matches, i) == After(banks, ledgers, config, i).used
    decreases n
  {
    hide After, Judge, Evidence, UniqueBankIds, BankIds;
    if n == 0 {
      AfterNone(banks, ledgers, config);
    } else {
      AfterStep(banks, ledgers, config, n);
      var p, v := After(banks, ledgers, config, n - 1), VerdictAt(banks, ledgers, config, n - 1);
      LaterBankId(banks, i, n - 1);
      RecordShape(p, banks[n - 1], v);
      IdsAsSet(GroupOf(v));
      if !IsMatch(v) { NoGroupTaken(v); }
      if i < n {
        ConsumedIsUsed(banks, ledgers, config, i, n - 1);
      } else {
        ConsumedUpTo(banks, ledgers, config, n);
      }
    }
  }

  lemma {:induction false} ConsumedUpTo(banks: seq<BankTransaction>, ledgers: seq<LedgerTransaction>, config: ReconciliationConfig, n: nat)
    requires UniqueIds(ledgers) && UniqueBankIds(banks) && n <= |banks|
    ensures forall i :: n <= i <= |banks| ==>
              ConsumedBefore(banks, After(banks, ledgers, config, n).matches, i) == After(banks, ledgers, config, n).used
  {
    hide After, Judge, Evidence, UniqueBankIds, BankIds;
    if n == 0 {
      AfterNone(banks, ledgers, config);
    } else {
      AfterStep(banks, ledgers, config, n);
      ConsumedUpTo(banks, ledgers, config, n - 1);
      var p, v := After(banks, ledgers, config, n - 1), VerdictAt(banks, ledgers, config, n - 1);
      RecordShape(p, banks[n - 1], v);
      IdsAsSet(GroupOf(v));
      if !IsMatch(v) { NoGroupTaken(v); }
      forall i | n <= i <= |banks|
        ensures ConsumedBefore(banks, After(banks, ledgers, config, n).matches, i) == After(banks, ledgers, config, n).used
      {
        LaterBankId(banks, i, n - 1);
      }
    }
  }

  // ---- the exception a bank transaction leads -------------------------------------------------------------

  lemma {:induction false} LeadOrigin(banks: seq<BankTransaction>, ledgers: seq<LedgerTransaction>, config: ReconciliationConfig,
                                      n: nat, e: ReconciliationException) returns (i: nat)
    requires n <= |banks| && e in After(banks, ledgers, config, n).exceptions
    ensures i < n && !IsMatch(VerdictAt(banks, ledgers, config, i))
    ensures e == ExceptionOf(banks[i], VerdictAt(banks, ledgers, config, i))
    decreases n
  {
    hide Judge, Evidence, After, IdSet, Mark, ExceptionOf;
    AfterNone(banks, ledgers, config);
    AfterStep(banks, ledgers, config, n);
    if e in After(banks, ledgers, config, n - 1).exceptions {
      i := LeadOrigin(banks, ledgers, config, n - 1, e);
    } else {
      i := n - 1;
    }
  }

  predicate LedBy(e: ReconciliationException, id: Name) { e.sources != [] && e.sources[0] == id }

  /** The evidence ids of a bank transaction and of the ledger transactions named, each once. */
  ghost predicate EvidenceOf(evidence: seq<Name>, bank: BankTransaction, ledgers: seq<LedgerTransaction>, ids: set<Name>) {
    && Distinct(evidence)
    && forall x :: x in evidence <==> x in bank.evidence || exists l :: l in ledgers && l.id in ids && x in l.evidence
  }

  ghost function CandidateIds(bank: BankTransaction, ledgers: seq<LedgerTransaction>, config: ReconciliationConfig, used: set<Name>): set<Name> {
    set l | l in ledgers && IsCandidate(bank, ledgers, config, used, l) :: l.id
  }

  /** The ids an exception lists after the bank transaction. */
  ghost predicate ListsExactly(sources: seq<Name>, id: Name, others: set<Name>) {
    && sources != [] && sources[0] == id && Distinct(sources[1..])
    && forall x :: x in sources[1..] <==> x in others
  }

  /** An exception of the bank transaction, given what was consumed before it. */
  ghost predicate Explains(e: ReconciliationException, bank: BankTransaction, ledgers: seq<LedgerTransaction>, config: ReconciliationConfig,
                           used: set<Name>)
  {
    && e.amount == bank.amount && e.currency == bank.currency && e.status == Open
    && e.code != UnmatchedLedger
    && (e.code == PendingTransaction <==> SetAside(bank, config))
    && (e.code == DuplicateCandidate <==> !SetAside(bank, config) && TwoCandidates(bank, ledgers, config, used))
    && (e.code == DuplicateAggregateCandidate <==>
          !SetAside(bank, config) && NoCandidate(bank, ledgers, config, used) && TwoGroups(bank, ledgers, config, used))
    && (e.code == UnmatchedBank <==>
          !SetAside(bank, config) && NoCandidate(bank, ledgers, config, used) && NoGroupFits(bank, ledgers, config, used))
    && (e.code == PendingTransaction || e.code == UnmatchedBank ==> e.evidence == bank.evidence)
    && ListsExactly(e.sources, bank.id, if e.code == DuplicateCandidate then CandidateIds(bank, ledgers, config, used) else {})
    && (e.code == DuplicateCandidate ==> EvidenceOf(e.evidence, bank, ledgers, CandidateIds(bank, ledgers, config, used)))
    && (e.code == DuplicateAggregateCandidate ==>
          exists a, b :: SmallestPair(bank, ledgers, config, used, a, b) && EvidenceOf(e.evidence, bank, ledgers, a))
  }

  lemma GroupEvidence(bank: BankTransaction, group: seq<LedgerTransaction>, ledgers: seq<LedgerTransaction>)
    requires UniqueIds(ledgers) && forall l :: l in group ==> l in ledgers
    ensures EvidenceOf(Evidence(bank, group), bank, ledgers, IdSet(group))
  {
    hide Evidence, UniqueIds;
    forall x ensures x in Evidence(bank, group) <==> x in bank.evidence || exists l :: l in ledgers && l.id in IdSet(group) && x in l.evidence {
      EvidenceIsExact(bank, group, x);
      if l :| l in ledgers && l.id in IdSet(group) && x in l.evidence {
        var m :| m in group && m.id == l.id;
        SameId(ledgers, l, m);
      }
    }
    EvidenceIsExact(bank, group, Name(""));
  }

  lemma CandidatesAre(bank: BankTransaction, ledgers: seq<LedgerTransaction>, config: ReconciliationConfig, used: set<Name>)
    requires UniqueIds(ledgers)
    ensures var cs := Candidates(bank, ledgers, config, used);
            && UniqueIds(cs) && (forall l :: l in cs ==> l in ledgers) && IdSet(cs) == CandidateIds(bank, ledgers, config, used)
  {
    hide Candidates, IsCandidate;
    CandidatesSelect(bank, ledgers, config, used);
    var cs := Candidates(bank, ledgers, config, used);
    forall l ensures l in cs <==> l in ledgers && IsCandidate(bank, ledgers, config, used, l) { CandidateInLedgers(bank, ledgers, config, used, l); }
  }

  lemma CandidateInLedgers(bank: BankTransaction, ledgers: seq<LedgerTransaction>, config: ReconciliationConfig, used: set<Name>, l: LedgerTransaction)
    ensures IsCandidate(bank, ledgers, config, used, l) ==> l in ledgers
  {
  }

  lemma ListedIds(id: Name, ls: seq<LedgerTransaction>)
    requires UniqueIds(ls)
    ensures ListsExactly([id] + Ids(ls), id, IdSet(ls))
  {
    var sources := [id] + Ids(ls);
    assert sources[1..] == Ids(ls);
    IdsAsSet(ls);
    assert forall x :: x in Ids(ls) <==> x in (set y | y in Ids(ls));
  }

  lemma ListedAlone(id: Name)
    ensures ListsExactly([id], id, {})
  {
    assert [id][1..] == [];
  }

  /** One verdict that is no match. */
  lemma VerdictExplains(bank: BankTransaction, ledgers: seq<LedgerTransaction>, config: ReconciliationConfig, used: set<Name>)
    requires UniqueIds(ledgers) && !IsMatch(Judge(bank, ledgers, config, used))
    ensures Explains(ExceptionOf(bank, Judge(bank, ledgers, config, used)), bank, ledgers, config, used)
  {
    hide Judge, Evidence, IsCandidate, NoGroupFits, TwoCandidates, ListsExactly, EvidenceOf, CandidateIds, Ids, UniqueIds, SmallestPair, NoCandidate;
    var v := Judge(bank, ledgers, config, used);
    SeveralCandidatesMeaning(bank, ledgers, config, used);
    SeveralGroupsMeaning(bank, ledgers, config, used);
    UnmatchedMeaning(bank, ledgers, config, used);
    PendingMeaning(bank, ledgers, config, used);
    ListedAlone(bank.id);
    match v {
      case SeveralCandidates(cs) =>
        SeveralAre(bank, ledgers, config, used);
        CandidatesAre(bank, ledgers, config, used);
        ListedIds(bank.id, cs);
        GroupEvidence(bank, cs, ledgers);
      case SeveralGroups(first) =>
        FirstGroup(bank, ledgers, config, used);
        GroupEvidence(bank, first, ledgers);
      case _ =>
    }
  }

  lemma PendingMeaning(bank: BankTransaction, ledgers: seq<LedgerTransaction>, config: ReconciliationConfig, used: set<Name>)
    ensures Judge(bank, ledgers, config, used).Pending? <==> SetAside(bank, config)
  {
    hide Candidates, SearchFrom, Remaining;
  }

  lemma SeveralAre(bank: BankTransaction, ledgers: seq<LedgerTransaction>, config: ReconciliationConfig, used: set<Name>)
    requires Judge(bank, ledgers, config, used).SeveralCandidates?
    ensures Judge(bank, ledgers, config, used).candidates == Candidates(bank, ledgers, config, used)
  {
    hide Candidates, SearchFrom, Remaining;
  }

  lemma FirstGroup(bank: BankTransaction, ledgers: seq<LedgerTransaction>, config: ReconciliationConfig, used: set<Name>)
    requires UniqueIds(ledgers) && Judge(bank, ledgers, config, used).SeveralGroups?
    ensures var first := Judge(bank, ledgers, config, used).first;
            (forall l :: l in first ==> l in ledgers) && exists b :: SmallestPair(bank, ledgers, config, used, IdSet(first), b)
  {
    hide Remaining, Candidates, Fits, Sums, NoCandidate, IdSet, Subseq, Fitting, Combinations;
    SearchVerdict(bank, ledgers, config, used);
    var rem := Remaining(bank, ledgers, config, used);
    var first := Judge(bank, ledgers, config, used).first;
    var other :| Sums(rem, bank.amount, other) && |other| == |first| && other != IdSet(first);
    assert SmallestPair(bank, ledgers, config, used, IdSet(first), other);
    AmbiguousMembers(rem, bank.amount, 2, config.maxAggregateSize);
    RemainingSelects(bank, ledgers, config, used);
    forall l | l in first ensures l in ledgers { assert l in rem; }
  }

  lemma {:induction false} AmbiguousMembers(rem: seq<LedgerTransaction>, amount: Money, size: nat, maxSize: int)
    requires UniqueIds(rem) && SearchFrom(rem, amount, size, maxSize).Ambiguous?
    ensures forall l :: l in SearchFrom(rem, amount, size, maxSize).first ==> l in rem
    decreases maxSize - size
  {
    hide Combinations, Fitting, Total, Subseq, UniqueIds;
    var groups := Fitting(Combinations(rem, size), amount);
    if |groups| > 1 {
      FittingSelects(Combinations(rem, size), amount);
      CombinationsComplete(rem, size, groups[0]);
      forall l | l in groups[0] ensures l in rem { SubseqElements(groups[0], rem, l); }
    } else if |groups| == 0 {
      AmbiguousMembers(rem, amount, size + 1, maxSize);
    }
  }

  /** In any finished run, the exception that leads with a bank transaction's id has the code, the
      sources and the evidence that its situation demands, given what the matches of the bank
      transactions before it consumed. */
  lemma EveryExceptionIsExplained(banks: seq<BankTransaction>, ledgers: seq<LedgerTransaction>, config: ReconciliationConfig, r: Result,
                                  i: nat, e: ReconciliationException)
    requires Completed(banks, ledgers, config, r) && i < |banks| && e in r.exceptions && LedBy(e, banks[i].id)
    ensures Explains(e, banks[i], ledgers, config, ConsumedBefore(banks, r.matches, i))
  {
    hide After, Sweep, ClashFree, UniqueIds, UniqueBankIds, Completed, Leftover, Explains, ConsumedBefore, BankIds, IdSet, Judge, MatchedIds;
    CompletedRun(banks, ledgers, config, r);
    var p := After(banks, ledgers, config, |banks|);
    ConsumedIsUsed(banks, ledgers, config, i, |banks|);
    assert ledgers[..|ledgers|] == ledgers && banks[..|banks|] == banks;
    SweepExact(p, ledgers, |ledgers|);
    PassKeeps(banks, ledgers, config, |banks|);
    BankIdsContains(banks, banks[i].id);
    LeftoverMembers(p, ledgers, e);
    assert e in p.exceptions;
    var j := LeadOrigin(banks, ledgers, config, |banks|, e);
    VerdictExplains(banks[j], ledgers, config, After(banks, ledgers, config, j).used);
    SameBank(banks, i, j);
  }

  lemma SameBank(banks: seq<BankTransaction>, i: nat, j: nat)
    requires UniqueBankIds(banks) && i < |banks| && j < |banks| && banks[i].id == banks[j].id
    ensures i == j
  {
  }

  // ---- ledger exceptions and matches --------------------------------------------------------------------------

  lemma LeadIsABank(banks: seq<BankTransaction>, ledgers: seq<LedgerTransaction>, config: ReconciliationConfig, e: ReconciliationException)
    ensures e in After(banks, ledgers, config, |banks|).exceptions ==> exists b :: b in banks && LedBy(e, b.id)
  {
    hide After, Judge;
    if e in After(banks, ledgers, config, |banks|).exceptions {
      var j := LeadOrigin(banks, ledgers, config, |banks|, e);
      assert banks[j] in banks;
    }
  }

  /** Any other exception reports one ledger transaction as it stands. */
  lemma OtherExceptionsAreLedgers(banks: seq<BankTransaction>, ledgers: seq<LedgerTransaction>, config: ReconciliationConfig, r: Result,
                                  e: ReconciliationException)
    requires Completed(banks, ledgers, config, r) && e in r.exceptions && forall b :: b in banks ==> !LedBy(e, b.id)
    ensures exists l :: && l in ledgers && l.id !in MatchedIds(r.matches) && e.code == UnmatchedLedger && e.sources == [l.id]
                        && e.evidence == l.evidence && e.amount == l.amount && e.currency == l.currency && e.status == Open
  {
    hide After, Sweep, ClashFree, UniqueIds, UniqueBankIds, Completed, Leftover, Judge, MatchedIds, IdSet;
    CompletedRun(banks, ledgers, config, r);
    var p := After(banks, ledgers, config, |banks|);
    assert ledgers[..|ledgers|] == ledgers;
    SweepExact(p, ledgers, |ledgers|);
    LeftoverMembers(p, ledgers, e);
    LeadIsABank(banks, ledgers, config, e);
  }

  /** A match keeps the evidence of its bank transaction and of its ledger transactions, and lists each of these once. */
  lemma MatchesAreDocumented(banks: seq<BankTransaction>, ledgers: seq<LedgerTransaction>, config: ReconciliationConfig, r: Result, k: nat)
    returns (i: nat)
    requires Completed(banks, ledgers, config, r) && k < |r.matches|
    ensures i < |banks| && r.matches[k].bankId == banks[i].id
    ensures Distinct(r.matches[k].ledgerIds) && IdsOf(r.matches[k]) <= IdSet(ledgers)
    ensures EvidenceOf(r.matches[k].evidence, banks[i], ledgers, IdsOf(r.matches[k]))
  {
    hide After, Sweep, ClashFree, UniqueBankIds, Completed, Judge, MatchedIds, Evidence, IdSet, EvidenceOf, UniqueIds;
    CompletedRun(banks, ledgers, config, r);
    i := MatchOrigin(banks, ledgers, config, |banks|, k);
    var used, v := After(banks, ledgers, config, i).used, VerdictAt(banks, ledgers, config, i);
    IdsAsSet(GroupOf(v));
    GroupMembers(banks[i], ledgers, config, used);
    GroupEvidence(banks[i], GroupOf(v), ledgers);
    DistinctIds(GroupOf(v));
    VerdictTakes(banks[i], ledgers, config, used);
    AvailableIds(banks[i], ledgers, config, used);
  }

  lemma DistinctIds(g: seq<LedgerTransaction>)
    requires UniqueIds(g)
    ensures Distinct(Ids(g))
  {
  }

  lemma GroupMembers(bank: BankTransaction, ledgers: seq<LedgerTransaction>, config: ReconciliationConfig, used: set<Name>)
    requires UniqueIds(ledgers) && IsMatch(Judge(bank, ledgers, config, used))
    ensures var g := GroupOf(Judge(bank, ledgers, config, used)); UniqueIds(g) && forall l :: l in g ==> l in ledgers
  {
    hide Remaining, SearchFrom, Candidates, Fits, Sums, NoCandidate, IdSet, Judge, IsCandidate;
    var v := Judge(bank, ledgers, config, used);
    match v {
      case Single(l) =>
        SingleMeaning(bank, ledgers, config, used, l);
        CandidateInLedgers(bank, ledgers, config, used, l);
      case Group(g) =>
        GroupSelects(bank, ledgers, config, used);
        RemainingSelects(bank, ledgers, config, used);
        var rem := Remaining(bank, ledgers, config, used);
        SubseqUnique(g, rem);
        forall l | l in g ensures l in ledgers { SubseqElements(g, rem, l); }
    }
  }

  lemma GroupSelects(bank: BankTransaction, ledgers: seq<LedgerTransaction>, config: ReconciliationConfig, used: set<Name>)
    requires UniqueIds(ledgers) && Judge(bank, ledgers, config, used).Group?
    ensures var rem := Remaining(bank, ledgers, config, used);
            UniqueIds(rem) && Subseq(Judge(bank, ledgers, config, used).group, rem)
  {
    hide Remaining, SearchFrom, Candidates, Fits, Sums, NoCandidate, IdSet, Subseq;
    SearchVerdict(bank, ledgers, config, used);
  }
}
