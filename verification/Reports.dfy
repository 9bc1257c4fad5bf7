/** Trial balances and close reports computed from accounting entries. */
module Reports {
  import opened Names

  datatype Category = Asset | Liability | Equity | Income | Expense

  datatype EntryRow = EntryRow(account: Name, name: Name, category: Category, debit: Money, credit: Money, evidence: set<Name>)

  predicate OneSide(e: EntryRow) {
    e.debit >= 0.0 && e.credit >= 0.0 && (e.debit != 0.0) != (e.credit != 0.0) && e.evidence != {}
  }

  type AccountingEntry = e: EntryRow | OneSide(e)
    witness EntryRow(Name("090"), Name("Bank"), Asset, 1.0, 0.0, {Name("e")})

  datatype Line = Line(account: Name, name: Name, debit: Money, credit: Money, evidence: set<Name>)

  datatype TrialBalance = TrialBalance(lines: seq<Line>, proForma: bool)

  // ---- grouping by account -----------------------------------------------------------------------

  predicate SameKey(l: Line, account: Name, name: Name) { l.account == account && l.name == name }

  /** Where the key is in the insertion-ordered dictionary; its size if it is not there. */
  function Position(lines: seq<Line>, account: Name, name: Name): (i: nat)
    ensures i <= |lines|
    ensures i < |lines| ==> SameKey(lines[i], account, name)
    ensures forall k :: 0 <= k < i ==> !SameKey(lines[k], account, name)
  {
    if lines == [] then 0
    else
      var i := Position(lines[..|lines| - 1], account, name);
      if i < |lines| - 1 then i else if SameKey(lines[|lines| - 1], account, name) then |lines| - 1 else |lines|
  }

  function Post(lines: seq<Line>, e: AccountingEntry): seq<Line> {
    var i := Position(lines, e.account, e.name);
    if i == |lines| then lines + [Line(e.account, e.name, e.debit, e.credit, e.evidence)]
    else lines[i := lines[i].(debit := lines[i].debit + e.debit, credit := lines[i].credit + e.credit,
                              evidence := lines[i].evidence + e.evidence)]
  }

  function Grouped(entries: seq<AccountingEntry>): seq<Line> {
    if entries == [] then [] else Post(Grouped(entries[..|entries| - 1]), entries[|entries| - 1])
  }

  // ---- order ----------------------------------------------------------------------------------------

  predicate TextLess(a: string, b: string) {
    if b == "" then false
    else if a == "" then true
    else a[0] < b[0] || (a[0] == b[0] && TextLess(a[1..], b[1..]))
  }

  predicate KeyLess(a: Line, b: Line) {
    TextLess(a.account.text, b.account.text) || (a.account == b.account && TextLess(a.name.text, b.name.text))
  }

  function Insert(l: Line, sorted: seq<Line>): seq<Line> {
    if sorted == [] then [l]
    else if KeyLess(sorted[0], l) then [sorted[0]] + Insert(l, sorted[1..])
    else [l] + sorted
  }

  function Sort(lines: seq<Line>): seq<Line> {
    if lines == [] then [] else Insert(lines[0], Sort(lines[1..]))
  }

  // ---- totals -----------------------------------------------------------------------------------------

  function DebitSum(lines: seq<Line>): Money {
    if lines == [] then 0.0 else lines[0].debit + DebitSum(lines[1..])
  }

  function CreditSum(lines: seq<Line>): Money {
    if lines == [] then 0.0 else lines[0].credit + CreditSum(lines[1..])
  }

  function TrialBalanceOf(entries: seq<AccountingEntry>, proForma: bool): Option<TrialBalance> {
    var lines := Sort(Grouped(entries));
    if DebitSum(lines) == CreditSum(lines) then Some(TrialBalance(lines, proForma)) else None
  }

  method BuildTrialBalance(entries: seq<AccountingEntry>, proForma: bool) returns (r: Option<TrialBalance>)
    ensures r == TrialBalanceOf(entries, proForma)
  {
    var grouped: seq<Line> := [];
    for n := 0 to |entries|
      invariant grouped == Grouped(entries[..n])
    {
      assert entries[..n + 1][..n] == entries[..n];
      var entry := entries[n];
      ghost var before := grouped;
      var i := Position(grouped, entry.account, entry.name);
      if i == |grouped| {
        grouped := grouped + [Line(entry.account, entry.name, 0.0, 0.0, {})];
      }
      var line := grouped[i];
      grouped := grouped[i := Line(line.account, line.name, line.debit + entry.debit, line.credit + entry.credit,
                                   line.evidence + entry.evidence)];
      assert {} + entry.evidence == entry.evidence;
      assert grouped == Post(before, entry);
    }
    assert entries[..|entries|] == entries;
    var lines := Sort(grouped);
    if DebitSum(lines) != CreditSum(lines) {
      return None;
    }
    r := Some(TrialBalance(lines, proForma));
  }

  // ---- the reports ---------------------------------------------------------------------------------------

  /** The debit balance of one category. */
  function NetDebit(entries: seq<AccountingEntry>, c: Category): Money {
    if entries == [] then 0.0
    else
      var last := entries[|entries| - 1];
      NetDebit(entries[..|entries| - 1], c) + if last.category == c then last.debit - last.credit else 0.0
  }

  datatype CloseReports = CloseReports(unadjusted: TrialBalance, adjusted: TrialBalance, income: Money, expense: Money,
                                       assets: Money, liabilities: Money, equity: Money)

  datatype Outcome = Reported(reports: CloseReports) | TrialBalanceFails | EquationFails | CashDoesNotTie

  function ComputeReports(unadjusted: seq<AccountingEntry>, adjusted: seq<AccountingEntry>, bankTotal: Money, ledgerCash: Money): Outcome {
    var before, after := TrialBalanceOf(unadjusted, false), TrialBalanceOf(adjusted, true);
    if before.None? || after.None? then TrialBalanceFails
    else
      var income, expense := -NetDebit(adjusted, Income), NetDebit(adjusted, Expense);
      var assets, liabilities, equity := NetDebit(adjusted, Asset), -NetDebit(adjusted, Liability), -NetDebit(adjusted, Equity);
      if assets != liabilities + equity + (income - expense) then EquationFails
      else if bankTotal - ledgerCash != 0.0 then CashDoesNotTie
      else Reported(CloseReports(before.value, after.value, income, expense, assets, liabilities, equity))
  }

  // ---- grouping keeps the entries' money ----------------------------------------------------------------------

  ghost function Debits(entries: seq<AccountingEntry>): Money {
    if entries == [] then 0.0 else Debits(entries[..|entries| - 1]) + entries[|entries| - 1].debit
  }

  ghost function Credits(entries: seq<AccountingEntry>): Money {
    if entries == [] then 0.0 else Credits(entries[..|entries| - 1]) + entries[|entries| - 1].credit
  }

  lemma {:induction false} SumsAppend(a: seq<Line>, b: seq<Line>)
    ensures DebitSum(a + b) == DebitSum(a) + DebitSum(b) && CreditSum(a + b) == CreditSum(a) + CreditSum(b)
  {
    if a == [] {
      assert a + b == b;
    } else {
      assert (a + b)[1..] == a[1..] + b;
      SumsAppend(a[1..], b);
    }
  }

  lemma PostSums(lines: seq<Line>, e: AccountingEntry)
    ensures DebitSum(Post(lines, e)) == DebitSum(lines) + e.debit && CreditSum(Post(lines, e)) == CreditSum(lines) + e.credit
  {
    var i := Position(lines, e.account, e.name);
    if i == |lines| {
      SumsAppend(lines, [Line(e.account, e.name, e.debit, e.credit, e.evidence)]);
    } else {
      var posted := Post(lines, e);
      assert lines == lines[..i] + ([lines[i]] + lines[i + 1..]);
      assert posted == lines[..i] + ([posted[i]] + lines[i + 1..]);
      SumsAppend(lines[..i], [lines[i]] + lines[i + 1..]);
      SumsAppend(lines[..i], [posted[i]] + lines[i + 1..]);
    }
  }

  lemma {:induction false} GroupedSums(entries: seq<AccountingEntry>)
    ensures DebitSum(Grouped(entries)) == Debits(entries) && CreditSum(Grouped(entries)) == Credits(entries)
  {
    if entries != [] {
      GroupedSums(entries[..|entries| - 1]);
      PostSums(Grouped(entries[..|entries| - 1]), entries[|entries| - 1]);
    }
  }

  lemma {:induction false} InsertSums(l: Line, s: seq<Line>)
    ensures DebitSum(Insert(l, s)) == l.debit + DebitSum(s) && CreditSum(Insert(l, s)) == l.credit + CreditSum(s)
    decreases |s|
  {
    if s != [] && KeyLess(s[0], l) {
      InsertSums(l, s[1..]);
      assert Insert(l, s)[1..] == Insert(l, s[1..]);
    } else {
      assert Insert(l, s) == [l] + s && ([l] + s)[1..] == s;
    }
  }

  lemma {:induction false} SortSums(s: seq<Line>)
    ensures DebitSum(Sort(s)) == DebitSum(s) && CreditSum(Sort(s)) == CreditSum(s)
  {
    if s != [] {
      SortSums(s[1..]);
      InsertSums(s[0], Sort(s[1..]));
    }
  }

  /** A trial balance exists exactly when the entries' debits equal their credits, and then
      carries the same totals. */
  lemma BalancesExactlyWhen(entries: seq<AccountingEntry>, proForma: bool)
    ensures TrialBalanceOf(entries, proForma).Some? <==> Debits(entries) == Credits(entries)
    ensures TrialBalanceOf(entries, proForma).Some? ==>
              DebitSum(TrialBalanceOf(entries, proForma).value.lines) == Debits(entries) == Credits(entries)
  {
    GroupedSums(entries);
    SortSums(Grouped(entries));
  }

  lemma {:induction false} CategoriesPartition(entries: seq<AccountingEntry>)
    ensures NetDebit(entries, Asset) + NetDebit(entries, Liability) + NetDebit(entries, Equity) + NetDebit(entries, Income)
            + NetDebit(entries, Expense) == Debits(entries) - Credits(entries)
  {
    if entries != [] { CategoriesPartition(entries[..|entries| - 1]); }
  }

  /** Once the trial balances validate the accounting equation cannot fail, so reports come
      out exactly when both sets of entries balance and the cash ties. */
  lemma EquationCannotFail(unadjusted: seq<AccountingEntry>, adjusted: seq<AccountingEntry>, bankTotal: Money, ledgerCash: Money)
    ensures var outcome := ComputeReports(unadjusted, adjusted, bankTotal, ledgerCash);
            && !outcome.EquationFails?
            && (outcome.Reported? <==> Debits(unadjusted) == Credits(unadjusted) && Debits(adjusted) == Credits(adjusted)
                                       && bankTotal == ledgerCash)
  {
    hide TrialBalanceOf, NetDebit, Debits, Credits;
    BalancesExactlyWhen(unadjusted, false);
    BalancesExactlyWhen(adjusted, true);
    CategoriesPartition(adjusted);
  }

  // ---- one line per account -------------------------------------------------------------------------------------

  ghost function DebitFor(entries: seq<AccountingEntry>, account: Name, name: Name): Money {
    if entries == [] then 0.0
    else
      var last := entries[|entries| - 1];
      DebitFor(entries[..|entries| - 1], account, name) + if last.account == account && last.name == name then last.debit else 0.0
  }

  ghost function CreditFor(entries: seq<AccountingEntry>, account: Name, name: Name): Money {
    if entries == [] then 0.0
    else
      var last := entries[|entries| - 1];
      CreditFor(entries[..|entries| - 1], account, name) + if last.account == account && last.name == name then last.credit else 0.0
  }

  ghost function EvidenceFor(entries: seq<AccountingEntry>, account: Name, name: Name): set<Name> {
    if entries == [] then {}
    else
      var last := entries[|entries| - 1];
      EvidenceFor(entries[..|entries| - 1], account, name) + if last.account == account && last.name == name then last.evidence else {}
  }

  /** What the entries say about one account. */
  ghost function LineFor(entries: seq<AccountingEntry>, account: Name, name: Name): Line {
    Line(account, name, DebitFor(entries, account, name), CreditFor(entries, account, name), EvidenceFor(entries, account, name))
  }

  ghost predicate KeysOnce(lines: seq<Line>) {
    forall i, j :: 0 <= i < j < |lines| ==> !SameKey(lines[i], lines[j].account, lines[j].name)
  }

  /** The dictionary holds what the entries say about the account, or nothing where no entry mentions it. */
  ghost predicate Holds(lines: seq<Line>, entries: seq<AccountingEntry>, account: Name, name: Name) {
    var i := Position(lines, account, name);
    if i < |lines| then lines[i] == LineFor(entries, account, name) && lines[i].evidence != {}
    else LineFor(entries, account, name) == Line(account, name, 0.0, 0.0, {})
  }

  lemma PositionIs(lines: seq<Line>, i: nat, account: Name, name: Name)
    requires KeysOnce(lines) && i < |lines| && SameKey(lines[i], account, name)
    ensures Position(lines, account, name) == i
  {
    forall k | 0 <= k < i ensures !SameKey(lines[k], account, name) {
      assert !SameKey(lines[k], lines[i].account, lines[i].name);
    }
  }

  lemma PostPosition(lines: seq<Line>, e: AccountingEntry, account: Name, name: Name)
    requires KeysOnce(lines)
    ensures KeysOnce(Post(lines, e))
    ensures var i, j := Position(lines, account, name), Position(Post(lines, e), account, name);
            if e.account == account && e.name == name then
              j < |Post(lines, e)|
              && Post(lines, e)[j] == (if i < |lines| then Line(account, name, lines[i].debit + e.debit, lines[i].credit + e.credit,
                                                                lines[i].evidence + e.evidence)
                                       else Line(account, name, e.debit, e.credit, e.evidence))
            else (j < |Post(lines, e)| <==> i < |lines|) && (i < |lines| ==> j == i && Post(lines, e)[j] == lines[i])
  {
    hide Position;
    var i := Position(lines, account, name);
    var posted := Post(lines, e);
    if e.account == account && e.name == name {
      PositionIs(posted, i, account, name);
    } else if i < |lines| {
      PositionIs(posted, i, account, name);
    }
  }

  lemma {:induction false} GroupedMeaning(entries: seq<AccountingEntry>, account: Name, name: Name)
    ensures KeysOnce(Grouped(entries)) && Holds(Grouped(entries), entries, account, name)
  {
    if entries != [] {
      hide Position, Post, KeysOnce, LineFor, Grouped;
      var rest, last := entries[..|entries| - 1], entries[|entries| - 1];
      GroupedMeaning(rest, account, name);
      PostPosition(Grouped(rest), last, account, name);
    }
  }

  /** A row is an accounting entry exactly if it has evidence, one positive side, and nothing on the other. */
  lemma EntryExactlyWhen(row: EntryRow)
    ensures OneSide(row) <==> row.evidence != {} && ((row.debit > 0.0 && row.credit == 0.0) || (row.credit > 0.0 && row.debit == 0.0))
  {
  }

  // ---- the printed order -------------------------------------------------------------------------------------------

  /** By account code, and by name under one code. */
  ghost predicate Follows(a: Line, b: Line) {
    !TextLess(b.account.text, a.account.text) && (a.account == b.account ==> !TextLess(b.name.text, a.name.text))
  }

  ghost predicate InOrder(lines: seq<Line>) {
    forall i, j :: 0 <= i < j < |lines| ==> Follows(lines[i], lines[j])
  }

  ghost predicate Ordered(lines: seq<Line>) {
    forall i, j :: 0 <= i < j < |lines| ==> !KeyLess(lines[j], lines[i])
  }

  lemma OrderedMeaning(lines: seq<Line>)
    ensures Ordered(lines) <==> InOrder(lines)
  {
    hide TextLess;
  }

  /** One text comes before another: it ends first, or has the smaller character where they first differ. */
  lemma {:induction false} TextLessMeaning(a: string, b: string)
    ensures TextLess(a, b) <==> exists k :: DiffersAt(a, b, k)
  {
    if b != "" {
      if a == "" || a[0] < b[0] {
        assert DiffersAt(a, b, 0);
      } else if a[0] == b[0] {
        TextLessMeaning(a[1..], b[1..]);
        if k :| DiffersAt(a[1..], b[1..], k) {
          assert a[..k + 1] == [a[0]] + a[1..][..k] && b[..k + 1] == [b[0]] + b[1..][..k];
          assert DiffersAt(a, b, k + 1);
        }
        if k :| DiffersAt(a, b, k) {
          assert k > 0;
          assert a[1..][..k - 1] == a[..k][1..] && b[1..][..k - 1] == b[..k][1..];
          assert DiffersAt(a[1..], b[1..], k - 1);
        }
      } else {
        assert forall k :: 0 < k <= |a| && k < |b| && a[..k] == b[..k] ==> a[..k][0] == b[..k][0];
      }
    }
  }

  ghost predicate DiffersAt(a: string, b: string, k: int) {
    0 <= k <= |a| && k < |b| && a[..k] == b[..k] && (k < |a| ==> a[k] < b[k])
  }

  lemma {:induction false} TextLessAsymmetric(a: string, b: string)
    requires TextLess(a, b)
    ensures !TextLess(b, a)
  {
    if a != "" && a[0] == b[0] { TextLessAsymmetric(a[1..], b[1..]); }
  }

  /** Two texts are ordered one way or the other, unless they are the same. */
  lemma {:induction false} TextLessTotal(a: string, b: string)
    ensures TextLess(a, b) || TextLess(b, a) || a == b
  {
    if a != "" && b != "" && a[0] == b[0] {
      TextLessTotal(a[1..], b[1..]);
      assert a == [a[0]] + a[1..] && b == [b[0]] + b[1..];
    }
  }

  /** Whatever lies between two ordered texts is above the first or below the second. */
  lemma {:induction false} TextLessBetween(a: string, b: string, c: string)
    requires TextLess(a, c)
    ensures TextLess(a, b) || TextLess(b, c)
  {
    if a != "" && b != "" && a[0] == b[0] == c[0] { TextLessBetween(a[1..], b[1..], c[1..]); }
  }

  lemma KeyLessAsymmetric(a: Line, b: Line)
    requires KeyLess(a, b)
    ensures !KeyLess(b, a)
  {
    if TextLess(a.account.text, b.account.text) {
      TextLessAsymmetric(a.account.text, b.account.text);
    } else {
      TextLessAsymmetric(a.name.text, b.name.text);
    }
  }

  lemma KeyLessBetween(a: Line, b: Line, c: Line)
    requires KeyLess(a, c)
    ensures KeyLess(a, b) || KeyLess(b, c)
  {
    hide TextLess;
    if TextLess(a.account.text, c.account.text) {
      TextLessBetween(a.account.text, b.account.text, c.account.text);
    } else {
      TextLessTotal(a.account.text, b.account.text);
      TextLessBetween(a.name.text, b.name.text, c.name.text);
    }
  }

  lemma InsertStep(l: Line, s: seq<Line>)
    requires s != []
    ensures Insert(l, s) == if KeyLess(s[0], l) then [s[0]] + Insert(l, s[1..]) else [l] + s
  {
    hide KeyLess;
  }

  lemma {:induction false} InsertMembers(l: Line, s: seq<Line>)
    ensures multiset(Insert(l, s)) == multiset(s) + multiset{l}
    decreases |s|
  {
    hide KeyLess;
    if s != [] && KeyLess(s[0], l) {
      InsertMembers(l, s[1..]);
      assert s == [s[0]] + s[1..];
    }
  }

  lemma InsertElement(l: Line, s: seq<Line>, x: Line)
    requires x in Insert(l, s)
    ensures x == l || x in s
  {
    hide Insert;
    InsertMembers(l, s);
    assert x in multiset(Insert(l, s));
  }

  lemma {:induction false} InsertOrdered(l: Line, s: seq<Line>)
    requires Ordered(s)
    ensures Ordered(Insert(l, s))
    decreases |s|
  {
    hide KeyLess, Insert;
    if s == [] {
      InsertNothing(l);
    } else {
      InsertStep(l, s);
      var rest := s[1..];
      forall i, j | 0 <= i < j < |rest| ensures !KeyLess(rest[j], rest[i]) { assert rest[i] == s[i + 1] && rest[j] == s[j + 1]; }
      if KeyLess(s[0], l) {
        KeyLessAsymmetric(s[0], l);
        InsertOrdered(l, rest);
        forall x | x in Insert(l, rest) ensures !KeyLess(x, s[0]) {
          InsertElement(l, rest, x);
          if x in rest { var k :| 0 <= k < |rest| && rest[k] == x; assert s[k + 1] == x; }
        }
      } else {
        forall x | x in s ensures !KeyLess(x, l) {
          var k :| 0 <= k < |s| && s[k] == x;
          NotBelow(x, s[0], l);
        }
      }
    }
  }

  lemma InsertNothing(l: Line)
    ensures Insert(l, []) == [l]
  {
  }

  /** Not being below is transitive. */
  lemma NotBelow(x: Line, first: Line, l: Line)
    requires !KeyLess(first, l) && (x == first || !KeyLess(x, first))
    ensures !KeyLess(x, l)
  {
    hide KeyLess;
    if KeyLess(x, l) { KeyLessBetween(x, first, l); }
  }

  /** The printed lines are the grouped ones, in order of account code and name. */
  lemma SortMeaning(s: seq<Line>)
    ensures InOrder(Sort(s)) && multiset(Sort(s)) == multiset(s)
  {
    hide Ordered, InOrder, Sort;
    SortOrders(s);
    OrderedMeaning(Sort(s));
  }

  lemma {:induction false} SortOrders(s: seq<Line>)
    ensures Ordered(Sort(s)) && multiset(Sort(s)) == multiset(s)
  {
    hide KeyLess, Insert;
    if s != [] {
      SortOrders(s[1..]);
      InsertOrdered(s[0], Sort(s[1..]));
      InsertMembers(s[0], Sort(s[1..]));
      assert s == [s[0]] + s[1..];
    }
  }

  // ---- what the reports say ----------------------------------------------------------------------------------------

  lemma {:induction false} DistinctCount(s: seq<Line>, x: Line)
    requires forall i, j :: 0 <= i < j < |s| ==> s[i] != s[j]
    ensures multiset(s)[x] == if x in s then 1 else 0
  {
    if s != [] {
      DistinctCount(s[1..], x);
      assert s == [s[0]] + s[1..];
      assert s[0] !in s[1..];
    }
  }

  lemma KeysDiffer(lines: seq<Line>)
    requires KeysOnce(lines)
    ensures forall i, j :: 0 <= i < j < |lines| ==> lines[i] != lines[j]
  {
    forall i, j | 0 <= i < j < |lines| ensures lines[i] != lines[j] {
      assert !SameKey(lines[i], lines[j].account, lines[j].name);
    }
  }

  /** The trial balance of these entries: in order, once each, what the entries say about every account they name. */
  ghost predicate Presents(t: TrialBalance, entries: seq<AccountingEntry>, proForma: bool) {
    && t.proForma == proForma && InOrder(t.lines)
    && forall l :: multiset(t.lines)[l] == if l.evidence != {} && l == LineFor(entries, l.account, l.name) then 1 else 0
  }

  lemma TrialBalancePresents(entries: seq<AccountingEntry>, proForma: bool)
    ensures TrialBalanceOf(entries, proForma).Some? ==> Presents(TrialBalanceOf(entries, proForma).value, entries, proForma)
  {
    hide Sort, Grouped, LineFor, Position, InOrder, KeysOnce;
    var lines := Grouped(entries);
    SortMeaning(lines);
    forall l: Line ensures multiset(lines)[l] == if l.evidence != {} && l == LineFor(entries, l.account, l.name) then 1 else 0 {
      GroupedMeaning(entries, l.account, l.name);
      KeysDiffer(lines);
      DistinctCount(lines, l);
      if i :| 0 <= i < |lines| && lines[i] == l { PositionIs(lines, i, l.account, l.name); }
    }
  }

  ghost function DebitIn(entries: seq<AccountingEntry>, c: Category): Money {
    if entries == [] then 0.0 else (if entries[0].category == c then entries[0].debit else 0.0) + DebitIn(entries[1..], c)
  }

  ghost function CreditIn(entries: seq<AccountingEntry>, c: Category): Money {
    if entries == [] then 0.0 else (if entries[0].category == c then entries[0].credit else 0.0) + CreditIn(entries[1..], c)
  }

  lemma {:induction false} SumsInSnoc(entries: seq<AccountingEntry>, c: Category)
    requires entries != []
    ensures var rest, last := entries[..|entries| - 1], entries[|entries| - 1];
            && DebitIn(entries, c) == DebitIn(rest, c) + (if last.category == c then last.debit else 0.0)
            && CreditIn(entries, c) == CreditIn(rest, c) + (if last.category == c then last.credit else 0.0)
  {
    if |entries| > 1 {
      SumsInSnoc(entries[1..], c);
      assert entries[1..][..|entries| - 2] == entries[..|entries| - 1][1..];
    }
  }

  lemma {:induction false} NetDebitMeaning(entries: seq<AccountingEntry>, c: Category)
    ensures NetDebit(entries, c) == DebitIn(entries, c) - CreditIn(entries, c)
  {
    if entries != [] {
      NetDebitMeaning(entries[..|entries| - 1], c);
      SumsInSnoc(entries, c);
    }
  }

  /** Which outcome comes out, and what every figure of the reports is: the trial balances of both sets of
      entries, and the totals of the adjusted ones by category, credits less debits for income, liabilities and
      equity, and debits less credits for expenses and assets. */
  lemma ReportsAreExact(unadjusted: seq<AccountingEntry>, adjusted: seq<AccountingEntry>, bankTotal: Money, ledgerCash: Money)
    ensures var outcome := ComputeReports(unadjusted, adjusted, bankTotal, ledgerCash);
            && (outcome.TrialBalanceFails? <==> Debits(unadjusted) != Credits(unadjusted) || Debits(adjusted) != Credits(adjusted))
            && (outcome.Reported? ==>
                  var r := outcome.reports;
                  && Presents(r.unadjusted, unadjusted, false) && Presents(r.adjusted, adjusted, true)
                  && r.income == CreditIn(adjusted, Income) - DebitIn(adjusted, Income)
                  && r.expense == DebitIn(adjusted, Expense) - CreditIn(adjusted, Expense)
                  && r.assets == DebitIn(adjusted, Asset) - CreditIn(adjusted, Asset)
                  && r.liabilities == CreditIn(adjusted, Liability) - DebitIn(adjusted, Liability)
                  && r.equity == CreditIn(adjusted, Equity) - DebitIn(adjusted, Equity))
  {
    hide TrialBalanceOf, NetDebit, Debits, Credits, DebitIn, CreditIn, Presents;
    BalancesExactlyWhen(unadjusted, false);
    BalancesExactlyWhen(adjusted, true);
    TrialBalancePresents(unadjusted, false);
    TrialBalancePresents(adjusted, true);
    forall c ensures NetDebit(adjusted, c) == DebitIn(adjusted, c) - CreditIn(adjusted, c) { NetDebitMeaning(adjusted, c); }
  }
}
