/** The adjustments proposed for a close: which exceptions get one, that each is a sound
    journal, and what posting them does to the cash difference. */
module Adjustments {
  import opened Names
  import opened Journals
  import opened Reconciliation
  import opened GroupSearch
  import opened ReconciliationRuns
  import opened ReconciliationTotals
  import opened ReconciliationStatuses
  import opened CloseControls
  import opened CashControl
  import DraftActions
  import DraftActionsTheorems

  // ---- where exceptions come from ----------------------------------------------------------------------

  ghost predicate FromBank(e: ReconciliationException, banks: seq<BankTransaction>, i: int) {
    0 <= i < |banks| && e.sources != [] && e.sources[0] == banks[i].id && e.amount == banks[i].amount
    && (e.code == UnmatchedBank ==> e.sources == [banks[i].id] && e.evidence == banks[i].evidence)
  }

  lemma {:induction false} PassOrigin(banks: seq<BankTransaction>, ledgers: seq<LedgerTransaction>, config: ReconciliationConfig,
                                      n: nat, e: ReconciliationException)
    requires n <= |banks| && e in After(banks, ledgers, config, n).exceptions
    ensures e.code != UnmatchedLedger && e.status == Open && exists i :: FromBank(e, banks, i)
    decreases n
  {
    hide Judge, Evidence, After, IdSet, Mark, KindOf;
    AfterNone(banks, ledgers, config);
    AfterStep(banks, ledgers, config, n);
    if e in After(banks, ledgers, config, n - 1).exceptions {
      PassOrigin(banks, ledgers, config, n - 1, e);
    } else {
      assert FromBank(e, banks, n - 1);
    }
  }

  ghost predicate Traced(e: ReconciliationException, banks: seq<BankTransaction>, ledgers: seq<LedgerTransaction>) {
    e.status == Open
    && if e.code == UnmatchedLedger then exists l :: l in ledgers && e == LedgerException(l)
       else exists i :: FromBank(e, banks, i)
  }

  lemma ExceptionOrigin(banks: seq<BankTransaction>, ledgers: seq<LedgerTransaction>, config: ReconciliationConfig, r: Result,
                        e: ReconciliationException)
    requires Completed(banks, ledgers, config, r) && e in r.exceptions
    ensures Traced(e, banks, ledgers)
  {
    hide After, Sweep, ClashFree, UniqueBankIds, Completed, Leftover, UniqueIds, FromBank;
    CompletedRun(banks, ledgers, config, r);
    var p := After(banks, ledgers, config, |banks|);
    assert ledgers[..|ledgers|] == ledgers;
    SweepExact(p, ledgers, |ledgers|);
    if e in p.exceptions {
      PassOrigin(banks, ledgers, config, |banks|, e);
    } else {
      LeftoverMembers(p, ledgers, e);
    }
  }

  // ---- one proposal ----------------------------------------------------------------------------------------

  lemma {:induction false} BankFound(banks: seq<BankTransaction>, i: nat)
    requires UniqueBankIds(banks) && i < |banks|
    ensures BankById(banks, banks[i].id) == Some(banks[i])
  {
    if i < |banks| - 1 { BankFound(banks[..|banks| - 1], i); }
  }

  /** The cash account of the bank account a transaction was read from. */
  ghost function CashCode(facts: seq<Fact>, mapping: map<Name, Name>, id: Name): Option<Name> {
    var account := AccountById(facts, id);
    if account.Some? && account.value in mapping then Some(mapping[account.value]) else None
  }

  /** The configuration allows an adjustment of this unmatched bank transaction. */
  ghost predicate Adjustable(e: ReconciliationException, facts: seq<Fact>, mapping: map<Name, Name>, c: Configuration) {
    && e.code == UnmatchedBank && e.amount != 0.0 && e.sources != []
    && c.offset.Some? && c.offset.value in c.permitted
    && CashCode(facts, mapping, e.sources[0]).Some? && CashCode(facts, mapping, e.sources[0]).value in c.permitted
  }

  /** The amount in full between the offset and the cash account: out of cash if it is positive, into it if not. */
  ghost predicate Moves(lines: seq<JournalLine>, offset: Name, cash: Name, amount: Money, evidence: seq<Name>) {
    var to, from := if amount > 0.0 then offset else cash, if amount > 0.0 then cash else offset;
    var size := if amount > 0.0 then amount else -amount;
    multiset(lines) == multiset{JournalLine(to, size, 0.0, evidence), JournalLine(from, 0.0, size, evidence)}
  }

  /** The adjustment of an exception: a valid journal of its bank transaction's date that moves its amount between
      the offset and that transaction's own cash account, both permitted, and so takes it out of cash. */
  ghost predicate Settles(p: JournalProposal, e: ReconciliationException, facts: seq<Fact>, mapping: map<Name, Name>, c: Configuration,
                          banks: seq<BankTransaction>)
  {
    && ValidProposal(p)
    && e.sources != [] && p.subject == e.sources[0]
    && (exists i :: 0 <= i < |banks| && banks[i].id == p.subject && banks[i].date == p.date && banks[i].amount == e.amount)
    && c.offset.Some? && CashCode(facts, mapping, p.subject).Some?
    && Moves(p.lines, c.offset.value, CashCode(facts, mapping, p.subject).value, e.amount, e.evidence)
    && (forall l :: l in p.lines ==> l.account in c.permitted)
    && CashEffect(p.lines, mapping.Values) == if c.offset.value in mapping.Values then 0.0 else e.amount
  }

  lemma PairTotals(a: JournalLine, b: JournalLine, cashCodes: set<Name>)
    ensures DebitTotal([a, b]) == a.debit + b.debit && CreditTotal([a, b]) == a.credit + b.credit
    ensures CashEffect([a, b], cashCodes) == (if a.account in cashCodes then a.credit - a.debit else 0.0)
                                             + (if b.account in cashCodes then b.credit - b.debit else 0.0)
  {
    var none: seq<JournalLine> := [];
    assert [b][1..] == none && [a, b][1..] == [b];
    assert DebitTotal(none) == 0.0 && CreditTotal(none) == 0.0 && CashEffect(none, cashCodes) == 0.0;
    assert DebitTotal([b]) == b.debit && CreditTotal([b]) == b.credit;
    assert CashEffect([b], cashCodes) == if b.account in cashCodes then b.credit - b.debit else 0.0;
  }

  lemma AdjustmentEffect(offset: Name, code: Name, amount: Money, evidence: seq<Name>, cashCodes: set<Name>)
    requires amount != 0.0 && evidence != [] && code in cashCodes
    ensures var lines := AdjustmentLines(offset, code, amount, evidence);
            && |lines| == 2 && DebitTotal(lines) == CreditTotal(lines)
            && (forall l :: l in lines ==> ValidLine(l) && l.evidence == evidence && (l.account == offset || l.account == code))
            && Moves(lines, offset, code, amount, evidence)
            && CashEffect(lines, cashCodes) == if offset in cashCodes then 0.0 else amount
  {
    hide DebitTotal, CreditTotal, CashEffect;
    var lines := AdjustmentLines(offset, code, amount, evidence);
    PairTotals(lines[0], lines[1], cashCodes);
    assert lines == [lines[0], lines[1]];
  }

  lemma FirstOfOne(id: Name, rest: seq<Name>)
    requires IsPlaidId(id)
    ensures FirstPlaid([id] + rest) == Some(id)
  {
  }

  lemma NoneOfOne(id: Name)
    requires !IsPlaidId(id)
    ensures FirstPlaid([id]) == None
  {
    assert [id][1..] == [];
  }

  /** An exception gets a proposal exactly when it is adjustable: never for a ledger
      transaction, never without a permitted offset and a permitted cash account. */
  lemma ProposalExactlyWhen(e: ReconciliationException, facts: seq<Fact>, mapping: map<Name, Name>, period: Option<Period>,
                            c: Configuration, banks: seq<BankTransaction>, ledgers: seq<LedgerTransaction>)
    requires Banks(facts, mapping, period) == Projected(banks) && Ledgers(facts, period) == ledgers
    requires UniqueBankIds(banks) && Traced(e, banks, ledgers)
    ensures var p := ProposalFor(e, facts, banks, mapping, c.offset, c.permitted);
            && (p.Some? <==> Adjustable(e, facts, mapping, c))
            && (p.Some? ==> Settles(p.value, e, facts, mapping, c, banks))
  {
    hide Banks, Ledgers, BankById, AccountById, IsPlaidId, UniqueBankIds, AdjustmentLines, ValidLine, CashEffect, FirstPlaid;
    if e.code == UnmatchedLedger {
      var l :| l in ledgers && e == LedgerException(l);
      LedgerIsNotPlaid(facts, period, l);
      NoneOfOne(l.id);
    } else if e.code == UnmatchedBank {
      var i :| FromBank(e, banks, i);
      BankIsPlaid(facts, mapping, period, banks[i]);
      FirstOfOne(banks[i].id, []);
      assert [banks[i].id] + [] == e.sources;
      BankFound(banks, i);
      BankEvidence(facts, mapping, period, banks[i]);
      if Adjustable(e, facts, mapping, c) {
        var code := CashCode(facts, mapping, banks[i].id).value;
        AdjustmentEffect(c.offset.value, code, e.amount, e.evidence, mapping.Values);
      }
    }
  }

  lemma BankEvidence(facts: seq<Fact>, mapping: map<Name, Name>, period: Option<Period>, b: BankTransaction)
    requires Banks(facts, mapping, period).Projected? && b in Banks(facts, mapping, period).value
    ensures b.evidence != []
  {
    hide Banks, InPeriod;
    BanksMeaning(facts, mapping, period, b);
  }

  // ---- all of them -------------------------------------------------------------------------------------------

  /** The amounts of the material exceptions that can be adjusted. */
  ghost function Covered(es: seq<ReconciliationException>, facts: seq<Fact>, mapping: map<Name, Name>, c: Configuration): Money {
    if es == [] then 0.0
    else
      var last := es[|es| - 1];
      Covered(es[..|es| - 1], facts, mapping, c)
      + if Material(last, c.materiality) && Adjustable(last, facts, mapping, c) then last.amount else 0.0
  }

  /** What posting all proposals adds to the cash accounts. */
  ghost function Posted(ps: seq<JournalProposal>, cashCodes: set<Name>): Money {
    if ps == [] then 0.0 else Posted(ps[..|ps| - 1], cashCodes) + CashEffect(ps[|ps| - 1].lines, cashCodes)
  }

  ghost predicate AllTraced(es: seq<ReconciliationException>, banks: seq<BankTransaction>, ledgers: seq<LedgerTransaction>) {
    forall e :: e in es && e.status == Open ==> Traced(e, banks, ledgers)
  }

  /** How many proposals are about `id`. */
  ghost function About(ps: seq<JournalProposal>, id: Name): nat {
    if ps == [] then 0 else About(ps[..|ps| - 1], id) + One(ps[|ps| - 1].subject == id)
  }

  ghost function Planned(es: seq<ReconciliationException>, facts: seq<Fact>, mapping: map<Name, Name>, c: Configuration,
                         banks: seq<BankTransaction>): seq<JournalProposal>
  {
    Proposals(Materials(es, c.materiality), facts, banks, mapping, c.offset, c.permitted)
  }

  lemma PlannedSnoc(es: seq<ReconciliationException>, facts: seq<Fact>, mapping: map<Name, Name>, c: Configuration,
                    banks: seq<BankTransaction>)
    requires es != []
    ensures var rest, last := es[..|es| - 1], es[|es| - 1];
            var p := ProposalFor(last, facts, banks, mapping, c.offset, c.permitted);
            Planned(es, facts, mapping, c, banks)
            == Planned(rest, facts, mapping, c, banks) + if Material(last, c.materiality) && p.Some? then [p.value] else []
  {
    hide ProposalFor;
    var ms, last := Materials(es[..|es| - 1], c.materiality), es[|es| - 1];
    if Material(last, c.materiality) {
      assert (ms + [last])[..|ms|] == ms;
    } else {
      assert Materials(es, c.materiality) == ms;
    }
  }

  /** The setting all these lemmas share. */
  ghost predicate Derived(facts: seq<Fact>, mapping: map<Name, Name>, period: Option<Period>, banks: seq<BankTransaction>,
                          ledgers: seq<LedgerTransaction>)
  {
    Banks(facts, mapping, period) == Projected(banks) && Ledgers(facts, period) == ledgers && UniqueBankIds(banks)
  }

  /** The last exception adds its proposal, if it is material and adjustable, and nothing else. */
  lemma PlannedStep(es: seq<ReconciliationException>, facts: seq<Fact>, mapping: map<Name, Name>, period: Option<Period>,
                    c: Configuration, banks: seq<BankTransaction>, ledgers: seq<LedgerTransaction>) returns (p: Option<JournalProposal>)
    requires es != [] && Derived(facts, mapping, period, banks, ledgers) && AllTraced(es, banks, ledgers)
    ensures var last := es[|es| - 1];
            var before := Planned(es[..|es| - 1], facts, mapping, c, banks);
            && Planned(es, facts, mapping, c, banks) == (if p.Some? then before + [p.value] else before)
            && (p.Some? <==> Material(last, c.materiality) && Adjustable(last, facts, mapping, c))
            && (p.Some? ==> Settles(p.value, last, facts, mapping, c, banks))
    ensures AllTraced(es[..|es| - 1], banks, ledgers)
  {
    hide Banks, Ledgers, UniqueBankIds, Traced, ProposalFor, Proposals, Materials, Planned, Settles, Adjustable, Abs;
    PlannedSnoc(es, facts, mapping, c, banks);
    var last := es[|es| - 1];
    assert forall e :: e in es[..|es| - 1] ==> e in es;
    p := None;
    if Material(last, c.materiality) {
      assert last in es;
      ProposalExactlyWhen(last, facts, mapping, period, c, banks, ledgers);
      p := ProposalFor(last, facts, banks, mapping, c.offset, c.permitted);
    }
  }

  lemma {:induction false} PostedTotal(es: seq<ReconciliationException>, facts: seq<Fact>, mapping: map<Name, Name>, period: Option<Period>,
                                       c: Configuration, banks: seq<BankTransaction>, ledgers: seq<LedgerTransaction>)
    requires Derived(facts, mapping, period, banks, ledgers) && AllTraced(es, banks, ledgers)
    ensures Posted(Planned(es, facts, mapping, c, banks), mapping.Values)
         == if c.offset.Some? && c.offset.value in mapping.Values then 0.0 else Covered(es, facts, mapping, c)
  {
    hide Derived, AllTraced, Planned, Settles, Adjustable, Material;
    if es == [] {
      PlannedNone(facts, mapping, c, banks);
    } else {
      var p := PlannedStep(es, facts, mapping, period, c, banks, ledgers);
      PostedTotal(es[..|es| - 1], facts, mapping, period, c, banks, ledgers);
      if p.Some? {
        SettlesShape(p.value, es[|es| - 1], facts, mapping, c, banks);
      }
    }
  }

  lemma {:induction false} AboutAtMost(es: seq<ReconciliationException>, facts: seq<Fact>, mapping: map<Name, Name>, period: Option<Period>,
                                       c: Configuration, banks: seq<BankTransaction>, ledgers: seq<LedgerTransaction>, id: Name)
    requires Derived(facts, mapping, period, banks, ledgers) && AllTraced(es, banks, ledgers)
    ensures About(Planned(es, facts, mapping, c, banks), id) <= ExceptionLeads(es, id)
  {
    hide Derived, AllTraced, Planned, Settles, Adjustable, Material;
    if es == [] {
      PlannedNone(facts, mapping, c, banks);
    } else {
      var p := PlannedStep(es, facts, mapping, period, c, banks, ledgers);
      AboutAtMost(es[..|es| - 1], facts, mapping, period, c, banks, ledgers, id);
      if p.Some? {
        SettlesShape(p.value, es[|es| - 1], facts, mapping, c, banks);
      }
    }
  }

  lemma {:induction false} PlannedMembers(es: seq<ReconciliationException>, facts: seq<Fact>, mapping: map<Name, Name>, period: Option<Period>,
                                          c: Configuration, banks: seq<BankTransaction>, ledgers: seq<LedgerTransaction>)
    requires Derived(facts, mapping, period, banks, ledgers) && AllTraced(es, banks, ledgers)
    ensures var ps := Planned(es, facts, mapping, c, banks);
            && (forall p :: p in ps ==> exists e :: Backs(e, p, es, facts, mapping, c, banks))
            && (forall e :: e in es && Material(e, c.materiality) && Adjustable(e, facts, mapping, c) ==>
                  exists p :: p in ps && Settles(p, e, facts, mapping, c, banks))
  {
    hide Derived, AllTraced, Planned, Settles, Adjustable, Material;
    if es == [] {
      PlannedNone(facts, mapping, c, banks);
    } else {
      var rest, last := es[..|es| - 1], es[|es| - 1];
      assert es == rest + [last];
      var p := PlannedStep(es, facts, mapping, period, c, banks, ledgers);
      PlannedMembers(rest, facts, mapping, period, c, banks, ledgers);
      var ps := Planned(es, facts, mapping, c, banks);
      forall q | q in ps ensures exists e :: Backs(e, q, es, facts, mapping, c, banks) {
        if q in Planned(rest, facts, mapping, c, banks) {
          var e :| Backs(e, q, rest, facts, mapping, c, banks);
          assert Backs(e, q, es, facts, mapping, c, banks);
        } else {
          assert Backs(last, q, es, facts, mapping, c, banks);
        }
      }
      forall e | e in es && Material(e, c.materiality) && Adjustable(e, facts, mapping, c)
        ensures exists q :: q in ps && Settles(q, e, facts, mapping, c, banks)
      {
        if e in rest {
          var q :| q in Planned(rest, facts, mapping, c, banks) && Settles(q, e, facts, mapping, c, banks);
          assert q in ps;
        } else {
          assert p.value in ps;
        }
      }
    }
  }

  ghost predicate Backs(e: ReconciliationException, p: JournalProposal, es: seq<ReconciliationException>, facts: seq<Fact>,
                        mapping: map<Name, Name>, c: Configuration, banks: seq<BankTransaction>)
  {
    e in es && Material(e, c.materiality) && Adjustable(e, facts, mapping, c) && Settles(p, e, facts, mapping, c, banks)
  }

  lemma PlannedNone(facts: seq<Fact>, mapping: map<Name, Name>, c: Configuration, banks: seq<BankTransaction>)
    ensures Planned([], facts, mapping, c, banks) == []
  {
  }

  lemma SettlesShape(p: JournalProposal, e: ReconciliationException, facts: seq<Fact>, mapping: map<Name, Name>, c: Configuration,
                     banks: seq<BankTransaction>)
    requires Settles(p, e, facts, mapping, c, banks)
    ensures e.sources != [] && c.offset.Some? && p.subject == e.sources[0]
    ensures CashEffect(p.lines, mapping.Values) == if c.offset.value in mapping.Values then 0.0 else e.amount
  {
  }

  // ---- the derivation ------------------------------------------------------------------------------------------

  lemma {:induction false} NormalisingKeepsLeads(es: seq<ReconciliationException>, excludePending: bool, id: Name)
    ensures ExceptionLeads(NormalisedAll(es, excludePending), id) == ExceptionLeads(es, id)
  {
    if es != [] {
      var rest, last := es[..|es| - 1], es[|es| - 1];
      assert es == rest + [last];
      NormalisedSnoc(es, excludePending);
      NormalisingKeepsLeads(rest, excludePending, id);
      ExceptionLeadsSnoc(rest, last, id);
      ExceptionLeadsSnoc(NormalisedAll(rest, excludePending), Normalised(last, excludePending), id);
    }
  }

  /** The derivation seen as a run whose open exceptions all have an origin. */
  lemma Setting(facts: seq<Fact>, c: Configuration, period: Option<Period>, x: Execution, id: Name)
    requires Derive(facts, c, period) == Projected(x)
    ensures x.proposals == Planned(x.result.exceptions, facts, x.mapping, c, x.banks)
    ensures Derived(facts, x.mapping, period, x.banks, x.ledgers) && AllTraced(x.result.exceptions, x.banks, x.ledgers)
    ensures ExceptionLeads(x.result.exceptions, id) <= 1
  {
    hide Derive, Banks, Ledgers, Completed, Disjoint, UniqueBankIds, UniqueIds, ExceptionLeads, MatchLeads, MatchedIds, BankIds, IdSet,
         Traced, Proposals, Materials, ControlOf, After, Sweep, Consumptions, ClashFree;
    var raw := Unfold(facts, c, period, x);
    var config := RulesOf(c).value;
    CompletedRun(x.banks, x.ledgers, config, raw);
    DerivedIdsApart(facts, x.mapping, period);
    EveryTransactionOnce(x.banks, x.ledgers, config, raw, id);
    LeadsAtMostOnce(x.banks, x.ledgers, id);
    NormalisingKeepsLeads(raw.exceptions, c.excludePending, id);
    forall e | e in x.result.exceptions && e.status == Open ensures Traced(e, x.banks, x.ledgers) {
      var i :| 0 <= i < |raw.exceptions| && e == Normalised(raw.exceptions[i], c.excludePending);
      assert e == raw.exceptions[i];
      ExceptionOrigin(x.banks, x.ledgers, config, raw, e);
    }
  }

  lemma LeadsAtMostOnce(banks: seq<BankTransaction>, ledgers: seq<LedgerTransaction>, id: Name)
    requires Disjoint(banks, ledgers)
    ensures forall gone :: One(id in BankIds(banks)) + One(id in IdSet(ledgers) - gone) <= 1
  {
    hide BankIds, IdSet;
  }

  /** Posting every proposal closes exactly the amounts it covers, and leaves the rest of
      the explained difference; an offset that is itself a cash account closes nothing. */
  lemma PostingSettles(facts: seq<Fact>, c: Configuration, period: Option<Period>, x: Execution)
    requires Derive(facts, c, period) == Projected(x)
    ensures var cash := x.mapping.Values;
            BankSum(x.banks) - (CashSum(x.ledgers, cash) + Posted(x.proposals, cash))
            == Unexplained(x)
               - if c.offset.Some? && c.offset.value in cash then 0.0 else Covered(x.result.exceptions, facts, x.mapping, c)
  {
    hide Derive, Derived, AllTraced, Planned, Posted, Covered, Unexplained, BankSum, CashSum;
    Setting(facts, c, period, x, Name(""));
    DifferenceExplained(facts, c, period, x);
    PostedTotal(x.result.exceptions, facts, x.mapping, period, c, x.banks, x.ledgers);
  }

  /** The proposals are sound journals for exactly the material adjustable exceptions, and
      no transaction is adjusted twice. */
  lemma ProposalsAreExact(facts: seq<Fact>, c: Configuration, period: Option<Period>, x: Execution, id: Name)
    requires Derive(facts, c, period) == Projected(x)
    ensures forall p :: p in x.proposals ==> exists e :: Backs(e, p, x.result.exceptions, facts, x.mapping, c, x.banks)
    ensures forall e :: e in x.result.exceptions && Material(e, c.materiality) && Adjustable(e, facts, x.mapping, c) ==>
              exists p :: p in x.proposals && Settles(p, e, facts, x.mapping, c, x.banks)
    ensures About(x.proposals, id) <= 1
  {
    hide Derive, Derived, AllTraced, Planned, Settles, Adjustable, Material, About, ExceptionLeads, Backs;
    Setting(facts, c, period, x, id);
    PlannedMembers(x.result.exceptions, facts, x.mapping, period, c, x.banks, x.ledgers);
    AboutAtMost(x.result.exceptions, facts, x.mapping, period, c, x.banks, x.ledgers, id);
  }

  function DraftLines(lines: seq<JournalLine>): (r: seq<DraftActions.Line>)
    ensures |r| == |lines|
  {
    seq(|lines|, i requires 0 <= i < |lines| => DraftActions.Line(lines[i].account, lines[i].debit, lines[i].credit))
  }

  /** A sound proposal survives the provider's signed amounts: whatever draft holds it reads
      back as approved, so its action is never marked as failed for its content. */
  lemma SoundProposalsReadBack(p: JournalProposal, run: Name, date: string, narration: Name, id: int)
    requires ValidProposal(p) && |date| == 10
    ensures var key := DraftActions.Key(run, DraftActions.Content(date, narration, DraftLines(p.lines)));
            DraftActions.Matches(key, DraftActions.Read(DraftActions.Request(key, id)))
  {
    var lines := DraftLines(p.lines);
    var key := DraftActions.Key(run, DraftActions.Content(date, narration, lines));
    forall l | l in lines ensures DraftActionsTheorems.OneSided(l) {
      var i :| 0 <= i < |lines| && lines[i] == l;
      assert ValidLine(p.lines[i]);
    }
    DraftActionsTheorems.ReadBackMatchesExactly(key, id);
  }

  // ---- the right account ---------------------------------------------------------------------------------------

  predicate LiveAs(f: Fact, id: Name) { f.PlaidFact? && !f.removed && PlaidId(f.record) == id }

  lemma {:induction false} AccountFound(facts: seq<Fact>, id: Name, account: Name)
    requires forall f :: f in facts && LiveAs(f, id) ==> f.account == account
    ensures AccountById(facts, id) == if exists f :: f in facts && LiveAs(f, id) then Some(account) else None
  {
    if facts != [] {
      var rest, last := facts[..|facts| - 1], facts[|facts| - 1];
      assert facts == rest + [last];
      assert forall f :: f in facts <==> f in rest || f == last;
      AccountFound(rest, id, account);
      if !LiveAs(last, id) { assert (exists f :: f in facts && LiveAs(f, id)) <==> exists f :: f in rest && LiveAs(f, id); }
    }
  }

  /** A bank transaction is adjusted through the cash account of the bank account it was read
      from, as long as no other live record of the snapshot carries its id with another account. */
  lemma CashCodeIsItsOwn(facts: seq<Fact>, mapping: map<Name, Name>, period: Option<Period>, f: Fact)
    requires Banks(facts, mapping, period).Projected? && f in facts && f.PlaidFact? && !f.removed
    requires forall g :: g in facts && LiveAs(g, PlaidId(f.record)) ==> g.account == f.account
    ensures f.account in mapping && CashCode(facts, mapping, PlaidId(f.record)) == Some(mapping[f.account])
  {
    hide Banks, AccountById, InPeriod;
    AllAcceptable(facts, mapping, period);
    assert Acceptable(f, mapping, period);
    AccountFound(facts, PlaidId(f.record), f.account);
    assert LiveAs(f, PlaidId(f.record));
  }
}
