/** What the matcher decides for one bank transaction, stated over sets of ledger ids
    rather than over the lists the program enumerates. */
module GroupSearch {
  import opened Names
  import opened Sequences
  import opened Reconciliation

  ghost predicate UniqueIds(ledgers: seq<LedgerTransaction>) {
    forall i, j :: 0 <= i < j < |ledgers| ==> ledgers[i].id != ledgers[j].id
  }

  /** The sum of the ledger amounts whose id is in `ids`. */
  ghost function AmountOf(ledgers: seq<LedgerTransaction>, ids: set<Name>): Money {
    if ledgers == [] then 0.0
    else (if ledgers[0].id in ids then ledgers[0].amount else 0.0) + AmountOf(ledgers[1..], ids)
  }

  /** Not consumed, in the bank's currency, and at most the window's number of days away from it. */
  ghost predicate Usable(bank: BankTransaction, ledger: LedgerTransaction, config: ReconciliationConfig, used: set<Name>) {
    && ledger.id !in used && ledger.currency == bank.currency
    && ledger.date - bank.date <= config.dateWindowDays && bank.date - ledger.date <= config.dateWindowDays
  }

  ghost function Available(bank: BankTransaction, ledgers: seq<LedgerTransaction>, config: ReconciliationConfig,
                           used: set<Name>): set<Name>
  {
    set l | l in ledgers && Usable(bank, l, config, used) :: l.id
  }

  /** The unused, same-currency, in-window ledger transactions `ids` sum to the bank amount. */
  ghost predicate Fits(bank: BankTransaction, ledgers: seq<LedgerTransaction>, config: ReconciliationConfig,
                       used: set<Name>, ids: set<Name>)
  {
    ids <= Available(bank, ledgers, config, used) && AmountOf(ledgers, ids) == bank.amount
  }

  ghost predicate IsCandidate(bank: BankTransaction, ledgers: seq<LedgerTransaction>, config: ReconciliationConfig,
                              used: set<Name>, ledger: LedgerTransaction)
  {
    && ledger in ledgers && Usable(bank, ledger, config, used)
    && (|| ledger.amount == bank.amount
        || (0.0 < bank.fee <= config.feeTolerance && ledger.amount - bank.amount == bank.fee))
  }

  ghost predicate NoCandidate(bank: BankTransaction, ledgers: seq<LedgerTransaction>, config: ReconciliationConfig,
                              used: set<Name>)
  {
    forall l :: l in ledgers ==> !IsCandidate(bank, ledgers, config, used, l)
  }

  ghost predicate NoGroupFits(bank: BankTransaction, ledgers: seq<LedgerTransaction>, config: ReconciliationConfig,
                              used: set<Name>)
  {
    forall ids :: Fits(bank, ledgers, config, used, ids) ==> !(2 <= |ids| <= config.maxAggregateSize)
  }

  predicate SetAside(bank: BankTransaction, config: ReconciliationConfig) {
    bank.pending && !config.allowPending
  }

  // ---- lists and sets of ledger transactions -----------------------------------------------

  ghost function Arrange(ledgers: seq<LedgerTransaction>, ids: set<Name>): seq<LedgerTransaction> {
    if ledgers == [] then []
    else (if ledgers[0].id in ids then [ledgers[0]] else []) + Arrange(ledgers[1..], ids)
  }

  lemma {:induction false} ArrangeSelects(ledgers: seq<LedgerTransaction>, ids: set<Name>)
    ensures Subseq(Arrange(ledgers, ids), ledgers)
    ensures Total(Arrange(ledgers, ids)) == AmountOf(ledgers, ids)
    ensures forall l :: l in Arrange(ledgers, ids) <==> l in ledgers && l.id in ids
  {
    if ledgers != [] {
      ArrangeSelects(ledgers[1..], ids);
      var rest := Arrange(ledgers[1..], ids);
      if ledgers[0].id in ids {
        assert ([ledgers[0]] + rest)[1..] == rest;
      } else {
        assert [] + rest == rest;
      }
    }
  }

  lemma IdSetCons(ledgers: seq<LedgerTransaction>)
    requires ledgers != []
    ensures IdSet(ledgers) == {ledgers[0].id} + IdSet(ledgers[1..])
    ensures UniqueIds(ledgers) ==> UniqueIds(ledgers[1..]) && ledgers[0].id !in IdSet(ledgers[1..])
  {
    assert forall l :: l in ledgers <==> l == ledgers[0] || l in ledgers[1..];
    if UniqueIds(ledgers) {
      forall l | l in ledgers[1..] ensures l.id != ledgers[0].id {
        var i :| 0 <= i < |ledgers[1..]| && ledgers[1..][i] == l;
        assert ledgers[i + 1] == l;
      }
    }
  }

  lemma {:induction false} IdSetSize(g: seq<LedgerTransaction>)
    requires UniqueIds(g)
    ensures |IdSet(g)| == |g|
  {
    if g != [] {
      IdSetCons(g);
      IdSetSize(g[1..]);
    }
  }

  lemma {:induction false} SubseqUnique(g: seq<LedgerTransaction>, s: seq<LedgerTransaction>)
    requires Subseq(g, s) && UniqueIds(s)
    ensures UniqueIds(g)
    decreases |s|
  {
    if g != [] {
      IdSetCons(s);
      if g[0] == s[0] && Subseq(g[1..], s[1..]) {
        SubseqUnique(g[1..], s[1..]);
        forall k | 0 < k < |g| ensures g[k].id != g[0].id {
          assert g[k] == g[1..][k - 1];
          SubseqElements(g[1..], s[1..], g[k]);
        }
      } else {
        SubseqUnique(g, s[1..]);
      }
    }
  }

  lemma ArrangeSize(ledgers: seq<LedgerTransaction>, ids: set<Name>)
    requires UniqueIds(ledgers) && ids <= IdSet(ledgers)
    ensures IdSet(Arrange(ledgers, ids)) == ids
    ensures |Arrange(ledgers, ids)| == |ids|
  {
    ArrangeSelects(ledgers, ids);
    SubseqUnique(Arrange(ledgers, ids), ledgers);
    IdSetSize(Arrange(ledgers, ids));
    forall id | id in ids ensures id in IdSet(Arrange(ledgers, ids)) {
      var l :| l in ledgers && l.id == id;
    }
    assert IdSet(Arrange(ledgers, ids)) == ids;
  }

  lemma ArrangeTail(ledgers: seq<LedgerTransaction>, ids: set<Name>)
    requires ledgers != [] && UniqueIds(ledgers)
    ensures Arrange(ledgers[1..], ids) == Arrange(ledgers[1..], ids - {ledgers[0].id})
  {
    IdSetCons(ledgers);
    SameMembers(ledgers[1..], ids, ids - {ledgers[0].id});
  }

  lemma {:induction false} SameMembers(ledgers: seq<LedgerTransaction>, a: set<Name>, b: set<Name>)
    requires forall l :: l in ledgers ==> (l.id in a <==> l.id in b)
    ensures Arrange(ledgers, a) == Arrange(ledgers, b)
    ensures AmountOf(ledgers, a) == AmountOf(ledgers, b)
  {
    if ledgers != [] { SameMembers(ledgers[1..], a, b); }
  }

  /** Arranging by a set that holds, or does not hold, the id of the first transaction. */
  lemma ArrangeCons(ledgers: seq<LedgerTransaction>, ids: set<Name>)
    requires ledgers != [] && UniqueIds(ledgers)
    ensures ledgers[0].id in ids ==>
              Arrange(ledgers, ids) == [ledgers[0]] + Arrange(ledgers[1..], ids - {ledgers[0].id})
    ensures ledgers[0].id !in ids ==> Arrange(ledgers, ids) == Arrange(ledgers[1..], ids)
  {
    ArrangeTail(ledgers, ids);
  }

  lemma {:induction false} SubseqIsArrange(g: seq<LedgerTransaction>, ledgers: seq<LedgerTransaction>)
    requires Subseq(g, ledgers) && UniqueIds(ledgers)
    ensures g == Arrange(ledgers, IdSet(g))
    decreases |ledgers|
  {
    if ledgers != [] {
      hide IdSet, UniqueIds, Arrange;
      var first, rest := ledgers[0], ledgers[1..];
      IdSetCons(ledgers);
      ArrangeCons(ledgers, IdSet(g));
      if g != [] && g[0] == first && Subseq(g[1..], rest) {
        SubseqIsArrange(g[1..], rest);
        IdSetCons(g);
        SubseqIds(g[1..], rest);
        assert IdSet(g) - {first.id} == IdSet(g[1..]);
      } else {
        SubseqIsArrange(g, rest);
        SubseqIds(g, rest);
      }
    }
  }

  lemma SubseqIds(g: seq<LedgerTransaction>, ledgers: seq<LedgerTransaction>)
    requires Subseq(g, ledgers)
    ensures IdSet(g) <= IdSet(ledgers)
  {
    forall l | l in g ensures l in ledgers { SubseqElements(g, ledgers, l); }
  }

  /** A selection is determined by its ids, and its total by their amounts. */
  lemma SubseqAmount(g: seq<LedgerTransaction>, ledgers: seq<LedgerTransaction>)
    requires Subseq(g, ledgers) && UniqueIds(ledgers)
    ensures IdSet(g) <= IdSet(ledgers) && |IdSet(g)| == |g|
    ensures AmountOf(ledgers, IdSet(g)) == Total(g)
  {
    SubseqIsArrange(g, ledgers);
    SubseqIds(g, ledgers);
    SubseqUnique(g, ledgers);
    IdSetSize(g);
    ArrangeSelects(ledgers, IdSet(g));
  }

  lemma {:induction false} RemainingSelects(bank: BankTransaction, ledgers: seq<LedgerTransaction>,
                                            config: ReconciliationConfig, used: set<Name>)
    ensures forall l :: l in Remaining(bank, ledgers, config, used) <==> l in ledgers && Eligible(bank, l, config, used)
    ensures UniqueIds(ledgers) ==> UniqueIds(Remaining(bank, ledgers, config, used))
  {
    if ledgers != [] {
      RemainingSelects(bank, ledgers[1..], config, used);
      var rest := Remaining(bank, ledgers[1..], config, used);
      assert forall l :: l in ledgers <==> l == ledgers[0] || l in ledgers[1..];
      if UniqueIds(ledgers) {
        forall l | l in ledgers[1..] ensures l.id != ledgers[0].id {
          var i :| 0 <= i < |ledgers[1..]| && ledgers[1..][i] == l;
          assert ledgers[i + 1] == l;
        }
        forall k | 0 <= k < |rest| ensures rest[k].id != ledgers[0].id { assert rest[k] in rest; }
      }
    }
  }

  lemma {:induction false} CandidatesSelect(bank: BankTransaction, ledgers: seq<LedgerTransaction>,
                                            config: ReconciliationConfig, used: set<Name>)
    ensures forall l :: l in Candidates(bank, ledgers, config, used) <==> IsCandidate(bank, ledgers, config, used, l)
    ensures UniqueIds(ledgers) ==> UniqueIds(Candidates(bank, ledgers, config, used))
  {
    if ledgers != [] {
      CandidatesSelect(bank, ledgers[1..], config, used);
      var rest := Candidates(bank, ledgers[1..], config, used);
      assert forall l :: l in ledgers <==> l == ledgers[0] || l in ledgers[1..];
      if UniqueIds(ledgers) {
        forall l | l in ledgers[1..] ensures l.id != ledgers[0].id {
          var i :| 0 <= i < |ledgers[1..]| && ledgers[1..][i] == l;
          assert ledgers[i + 1] == l;
        }
        forall k | 0 <= k < |rest| ensures rest[k].id != ledgers[0].id { assert rest[k] in rest; }
      }
    }
  }

  lemma {:induction false} RemainingAmount(bank: BankTransaction, ledgers: seq<LedgerTransaction>,
                                           config: ReconciliationConfig, used: set<Name>, ids: set<Name>)
    requires forall l :: l in ledgers && l.id in ids ==> Eligible(bank, l, config, used)
    ensures AmountOf(Remaining(bank, ledgers, config, used), ids) == AmountOf(ledgers, ids)
  {
    if ledgers != [] {
      RemainingAmount(bank, ledgers[1..], config, used, ids);
      var rest := Remaining(bank, ledgers[1..], config, used);
      if Eligible(bank, ledgers[0], config, used) {
        assert ([ledgers[0]] + rest)[1..] == rest;
      } else {
        assert [] + rest == rest;
        assert ledgers[0] in ledgers;
      }
    }
  }

  /** Fits, restated over the list the search runs on. */
  lemma FitsRemaining(bank: BankTransaction, ledgers: seq<LedgerTransaction>, config: ReconciliationConfig,
                      used: set<Name>, ids: set<Name>)
    requires UniqueIds(ledgers)
    ensures var rem := Remaining(bank, ledgers, config, used);
            Fits(bank, ledgers, config, used, ids) <==> ids <= IdSet(rem) && AmountOf(rem, ids) == bank.amount
  {
    var rem := Remaining(bank, ledgers, config, used);
    RemainingSelects(bank, ledgers, config, used);
    assert Available(bank, ledgers, config, used) == IdSet(rem);
    if ids <= IdSet(rem) {
      forall l | l in ledgers && l.id in ids ensures Eligible(bank, l, config, used) {
        var m :| m in rem && m.id == l.id;
        SameId(ledgers, l, m);
      }
      RemainingAmount(bank, ledgers, config, used, ids);
    }
  }

  lemma SameId(ledgers: seq<LedgerTransaction>, l: LedgerTransaction, m: LedgerTransaction)
    requires UniqueIds(ledgers) && l in ledgers && m in ledgers && l.id == m.id
    ensures l == m
  {
    var i :| 0 <= i < |ledgers| && ledgers[i] == l;
    var j :| 0 <= j < |ledgers| && ledgers[j] == m;
  }

  // ---- the size-by-size search -----------------------------------------------------------------

  lemma {:induction false} FittingSelects(groups: seq<seq<LedgerTransaction>>, amount: Money)
    ensures forall g :: g in Fitting(groups, amount) <==> g in groups && Total(g) == amount
    ensures Distinct(groups) ==> Distinct(Fitting(groups, amount))
  {
    hide Total;
    if groups != [] {
      FittingSelects(groups[1..], amount);
      var rest := Fitting(groups[1..], amount);
      assert forall g :: g in groups <==> g == groups[0] || g in groups[1..];
      if Distinct(groups) {
        assert Distinct(groups[1..]) by {
          forall i, j | 0 <= i < j < |groups[1..]| ensures groups[1..][i] != groups[1..][j] {
            assert groups[i + 1] != groups[j + 1];
          }
        }
        forall k | 0 <= k < |rest| ensures rest[k] != groups[0] {
          assert rest[k] in rest;
          var i :| 0 <= i < |groups[1..]| && groups[1..][i] == rest[k];
          assert groups[0] != groups[i + 1];
        }
      }
    }
  }

  /** At one size, the list of fitting groups is exactly the fitting id sets, once each. */
  lemma FittingAtSize(rem: seq<LedgerTransaction>, amount: Money, k: nat, ids: set<Name>)
    requires UniqueIds(rem)
    ensures var groups := Fitting(Combinations(rem, k), amount);
            && Distinct(groups)
            && (ids <= IdSet(rem) && |ids| == k && AmountOf(rem, ids) == amount ==> Arrange(rem, ids) in groups)
  {
    hide Combinations, Fitting, Total, Arrange, AmountOf;
    var all := Combinations(rem, k);
    forall i, j | 0 <= i < j < |rem| ensures rem[i] != rem[j] { assert rem[i].id != rem[j].id; }
    CombinationsDistinct(rem, k);
    FittingSelects(all, amount);
    if ids <= IdSet(rem) && |ids| == k && AmountOf(rem, ids) == amount {
      ArrangeSelects(rem, ids);
      ArrangeSize(rem, ids);
      CombinationsComplete(rem, k, Arrange(rem, ids));
    }
  }

  lemma FittingGroup(rem: seq<LedgerTransaction>, amount: Money, k: nat, g: seq<LedgerTransaction>)
    requires UniqueIds(rem) && g in Fitting(Combinations(rem, k), amount)
    ensures Subseq(g, rem) && |g| == k
    ensures g == Arrange(rem, IdSet(g))
    ensures IdSet(g) <= IdSet(rem) && |IdSet(g)| == k && AmountOf(rem, IdSet(g)) == amount
  {
    hide Combinations, Fitting, Total, Arrange, AmountOf;
    FittingSelects(Combinations(rem, k), amount);
    CombinationsComplete(rem, k, g);
    SubseqIsArrange(g, rem);
    SubseqAmount(g, rem);
  }

  ghost predicate Sums(rem: seq<LedgerTransaction>, amount: Money, ids: set<Name>) {
    ids <= IdSet(rem) && AmountOf(rem, ids) == amount
  }

  /** What the search returns, in terms of id sets only. */
  ghost predicate SearchAnswer(rem: seq<LedgerTransaction>, amount: Money, size: nat, maxSize: int, answer: Search) {
    match answer
    case NoGroup => forall ids :: Sums(rem, amount, ids) ==> !(size <= |ids| <= maxSize)
    case Unique(g) =>
      && size <= |g| <= maxSize && Subseq(g, rem) && |IdSet(g)| == |g| && Sums(rem, amount, IdSet(g))
      && forall ids :: Sums(rem, amount, ids) && size <= |ids| <= |g| ==> ids == IdSet(g)
    case Ambiguous(g) =>
      && size <= |g| <= maxSize && |IdSet(g)| == |g| && Sums(rem, amount, IdSet(g))
      && (exists ids :: Sums(rem, amount, ids) && |ids| == |g| && ids != IdSet(g))
      && forall ids :: Sums(rem, amount, ids) && size <= |ids| ==> |g| <= |ids|
  }

  lemma {:induction false} SearchMeaning(rem: seq<LedgerTransaction>, amount: Money, size: nat, maxSize: int)
    requires UniqueIds(rem)
    ensures SearchAnswer(rem, amount, size, maxSize, SearchFrom(rem, amount, size, maxSize))
    decreases maxSize - size
  {
    hide Combinations, Fitting, Total, Arrange, AmountOf, IdSet;
    if size <= maxSize {
      var groups := Fitting(Combinations(rem, size), amount);
      forall ids | Sums(rem, amount, ids) && |ids| == size ensures Arrange(rem, ids) in groups {
        FittingAtSize(rem, amount, size, ids);
      }
      FittingAtSize(rem, amount, size, {});
      if |groups| == 0 {
        SearchMeaning(rem, amount, size + 1, maxSize);
      } else {
        var g := groups[0];
        FittingGroup(rem, amount, size, g);
        assert Sums(rem, amount, IdSet(g));
        if |groups| == 1 {
          forall ids | Sums(rem, amount, ids) && size <= |ids| <= |g| ensures ids == IdSet(g) {
            assert Arrange(rem, ids) == g;
            ArrangeSize(rem, ids);
          }
        } else {
          var h := groups[1];
          FittingGroup(rem, amount, size, h);
          assert g != h && Sums(rem, amount, IdSet(h)) && IdSet(h) != IdSet(g);
        }
      }
    }
  }

  // ---- the verdict on one bank transaction ----------------------------------------------------

  lemma SearchVerdict(bank: BankTransaction, ledgers: seq<LedgerTransaction>, config: ReconciliationConfig, used: set<Name>)
    requires UniqueIds(ledgers)
    ensures var rem := Remaining(bank, ledgers, config, used);
            && UniqueIds(rem)
            && SearchAnswer(rem, bank.amount, 2, config.maxAggregateSize,
                            SearchFrom(rem, bank.amount, 2, config.maxAggregateSize))
    ensures forall ids :: Sums(Remaining(bank, ledgers, config, used), bank.amount, ids)
                          <==> Fits(bank, ledgers, config, used, ids)
    ensures NoCandidate(bank, ledgers, config, used) <==> Candidates(bank, ledgers, config, used) == []
  {
    hide Remaining, SearchFrom, Candidates, AmountOf, IdSet, SearchAnswer;
    RemainingSelects(bank, ledgers, config, used);
    CandidatesSelect(bank, ledgers, config, used);
    SearchMeaning(Remaining(bank, ledgers, config, used), bank.amount, 2, config.maxAggregateSize);
    forall ids ensures Sums(Remaining(bank, ledgers, config, used), bank.amount, ids)
                       <==> Fits(bank, ledgers, config, used, ids) {
      FitsRemaining(bank, ledgers, config, used, ids);
    }
    var candidates := Candidates(bank, ledgers, config, used);
    if candidates != [] { assert IsCandidate(bank, ledgers, config, used, candidates[0]); }
  }

  /** A bank transaction is left unmatched exactly when no ledger transaction and no
      group of an allowed size could have been matched to it. */
  lemma UnmatchedMeaning(bank: BankTransaction, ledgers: seq<LedgerTransaction>, config: ReconciliationConfig, used: set<Name>)
    requires UniqueIds(ledgers)
    ensures Judge(bank, ledgers, config, used) == Unmatched
       <==> && !SetAside(bank, config)
            && NoCandidate(bank, ledgers, config, used)
            && NoGroupFits(bank, ledgers, config, used)
  {
    hide Remaining, SearchFrom, Candidates, Fits, Sums, NoCandidate;
    SearchVerdict(bank, ledgers, config, used);
  }

  /** One ledger transaction is matched exactly when it is the only candidate. */
  lemma SingleMeaning(bank: BankTransaction, ledgers: seq<LedgerTransaction>, config: ReconciliationConfig, used: set<Name>,
                      ledger: LedgerTransaction)
    requires UniqueIds(ledgers)
    ensures Judge(bank, ledgers, config, used) == Single(ledger)
       <==> && !SetAside(bank, config)
            && IsCandidate(bank, ledgers, config, used, ledger)
            && forall l :: IsCandidate(bank, ledgers, config, used, l) ==> l == ledger
  {
    hide Remaining, SearchFrom, Candidates, IsCandidate;
    CandidatesSelect(bank, ledgers, config, used);
    var candidates := Candidates(bank, ledgers, config, used);
    if |candidates| > 0 { assert candidates[0] in candidates; }
    if |candidates| > 1 {
      assert candidates[1] in candidates && candidates[0].id != candidates[1].id;
    }
  }

  /** A group is matched exactly when there is no single candidate, it fits, it has an
      allowed size, and no other group of its size or smaller fits. */
  lemma GroupMeaning(bank: BankTransaction, ledgers: seq<LedgerTransaction>, config: ReconciliationConfig, used: set<Name>,
                     ids: set<Name>)
    requires UniqueIds(ledgers)
    ensures (Judge(bank, ledgers, config, used).Group? && IdSet(Judge(bank, ledgers, config, used).group) == ids)
       <==> && !SetAside(bank, config)
            && NoCandidate(bank, ledgers, config, used)
            && Fits(bank, ledgers, config, used, ids) && 2 <= |ids| <= config.maxAggregateSize
            && forall other :: Fits(bank, ledgers, config, used, other) && 2 <= |other| <= |ids| ==> other == ids
  {
    hide Remaining, SearchFrom, Candidates, Fits, Sums, NoCandidate, IdSet, Subseq;
    SearchVerdict(bank, ledgers, config, used);
    var rem := Remaining(bank, ledgers, config, used);
    var answer := SearchFrom(rem, bank.amount, 2, config.maxAggregateSize);
    if answer.Ambiguous? {
      var other :| Sums(rem, bank.amount, other) && |other| == |answer.first| && other != IdSet(answer.first);
      assert Fits(bank, ledgers, config, used, other) && Fits(bank, ledgers, config, used, IdSet(answer.first));
    }
    if answer.Unique? { assert Fits(bank, ledgers, config, used, IdSet(answer.group)); }
  }

  ghost predicate TwoCandidates(bank: BankTransaction, ledgers: seq<LedgerTransaction>, config: ReconciliationConfig, used: set<Name>) {
    exists a, b :: IsCandidate(bank, ledgers, config, used, a) && IsCandidate(bank, ledgers, config, used, b) && a != b
  }

  /** Several candidates are reported exactly when two different ones exist. */
  lemma SeveralCandidatesMeaning(bank: BankTransaction, ledgers: seq<LedgerTransaction>, config: ReconciliationConfig, used: set<Name>)
    requires UniqueIds(ledgers)
    ensures Judge(bank, ledgers, config, used).SeveralCandidates?
       <==> !SetAside(bank, config) && TwoCandidates(bank, ledgers, config, used)
  {
    hide Remaining, SearchFrom, Candidates, IsCandidate;
    CandidatesSelect(bank, ledgers, config, used);
    var candidates := Candidates(bank, ledgers, config, used);
    if |candidates| > 1 {
      assert candidates[0] in candidates && candidates[1] in candidates && candidates[0].id != candidates[1].id;
    }
    if TwoCandidates(bank, ledgers, config, used) {
      var a, b :| IsCandidate(bank, ledgers, config, used, a) && IsCandidate(bank, ledgers, config, used, b) && a != b;
      assert a in candidates && b in candidates;
    }
  }

  /** Two different groups of one size fit, and none that is smaller. */
  ghost predicate TwoGroups(bank: BankTransaction, ledgers: seq<LedgerTransaction>, config: ReconciliationConfig, used: set<Name>) {
    exists a, b :: SmallestPair(bank, ledgers, config, used, a, b)
  }

  ghost predicate SmallestPair(bank: BankTransaction, ledgers: seq<LedgerTransaction>, config: ReconciliationConfig, used: set<Name>,
                               a: set<Name>, b: set<Name>)
  {
    && Fits(bank, ledgers, config, used, a) && Fits(bank, ledgers, config, used, b)
    && a != b && |a| == |b| && 2 <= |a| <= config.maxAggregateSize
    && forall ids :: Fits(bank, ledgers, config, used, ids) && 2 <= |ids| ==> |a| <= |ids|
  }

  /** Several groups are reported exactly when there is no candidate and the smallest fitting
      size has two groups. */
  lemma SeveralGroupsMeaning(bank: BankTransaction, ledgers: seq<LedgerTransaction>, config: ReconciliationConfig, used: set<Name>)
    requires UniqueIds(ledgers)
    ensures Judge(bank, ledgers, config, used).SeveralGroups?
       <==> !SetAside(bank, config) && NoCandidate(bank, ledgers, config, used) && TwoGroups(bank, ledgers, config, used)
  {
    hide Remaining, SearchFrom, Candidates, Fits, Sums, NoCandidate, IdSet, Subseq;
    SearchVerdict(bank, ledgers, config, used);
    var rem := Remaining(bank, ledgers, config, used);
    var answer := SearchFrom(rem, bank.amount, 2, config.maxAggregateSize);
    if answer.Ambiguous? {
      var other :| Sums(rem, bank.amount, other) && |other| == |answer.first| && other != IdSet(answer.first);
      assert SmallestPair(bank, ledgers, config, used, IdSet(answer.first), other);
    }
    if answer.Unique? { assert Fits(bank, ledgers, config, used, IdSet(answer.group)); }
    if TwoGroups(bank, ledgers, config, used) {
      var a, b :| SmallestPair(bank, ledgers, config, used, a, b);
      assert Sums(rem, bank.amount, a) && Sums(rem, bank.amount, b);
    }
  }
}
