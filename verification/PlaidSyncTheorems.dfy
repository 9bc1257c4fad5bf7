/** A successful sync is the plain fold of its pages; when a batch names a record twice. */
module PlaidSyncTheorems {
  import opened Names
  import opened PlaidSync

  // ---- the plain reading of pages --------------------------------------------------------------------

  /** The page adds or modifies this transaction. */
  predicate Sends(page: Page, t: Transaction) { t in page.added || t in page.modified }

  ghost predicate Writes(page: Page, id: Name) {
    exists t :: Sends(page, t) && t.id == id
  }

  ghost predicate DistinctIds(ts: seq<Transaction>) {
    (forall i :: 0 <= i < |ts| ==> ts[i].id != NO_ID) && forall i, j :: 0 <= i < j < |ts| ==> ts[i].id != ts[j].id
  }

  /** Every transaction of the page has an id, and no two share one, whether added or modified. */
  ghost predicate PageIdsOnce(page: Page) {
    && DistinctIds(page.added) && DistinctIds(page.modified)
    && forall i, j :: 0 <= i < |page.added| && 0 <= j < |page.modified| ==> page.added[i].id != page.modified[j].id
  }

  lemma PageIdsOnceMeaning(page: Page)
    ensures UpsertsOk(Upserts(page)) <==> PageIdsOnce(page)
  {
    var all, n := Upserts(page), |page.added|;
    if UpsertsOk(all) {
      forall i | 0 <= i < n ensures page.added[i] == all[i] {}
      forall j | 0 <= j < |page.modified| ensures page.modified[j] == all[n + j] {}
    }
  }

  ghost function RemovedIds(rs: seq<Removal>): set<Name> {
    if rs == [] then {} else RemovedIds(rs[..|rs| - 1]) + {rs[|rs| - 1].id}
  }

  /** Upserts first, then removals. */
  ghost function ApplyPage(m: map<Name, Transaction>, page: Page): map<Name, Transaction> {
    UpsertAll(m, Upserts(page)) - RemovedIds(page.removed)
  }

  ghost function FoldPages(m: map<Name, Transaction>, pages: seq<Page>): map<Name, Transaction> {
    if pages == [] then m else ApplyPage(FoldPages(m, pages[..|pages| - 1]), pages[|pages| - 1])
  }

  ghost function AllRemoved(pages: seq<Page>): seq<Removal> {
    if pages == [] then [] else AllRemoved(pages[..|pages| - 1]) + pages[|pages| - 1].removed
  }

  ghost predicate IdsOnce(rs: seq<Removal>) {
    (forall i :: 0 <= i < |rs| ==> rs[i].id != NO_ID) && forall i, j :: 0 <= i < j < |rs| ==> rs[i].id != rs[j].id
  }

  ghost predicate AllOwned(m: map<Name, Transaction>, rs: seq<Removal>) {
    forall r :: r in rs ==> r.account.Some? || (r.id in m && m[r.id].account.Some?)
  }

  ghost predicate Fresh(gone: set<Name>, rs: seq<Removal>) {
    forall r :: r in rs ==> r.id !in gone
  }

  ghost function TombstonesOf(m: map<Name, Transaction>, rs: seq<Removal>): seq<Tombstone>
    requires AllOwned(m, rs)
  {
    seq(|rs|, i requires 0 <= i < |rs| =>
      assert rs[i] in rs;
      Tombstone(rs[i].id, if rs[i].account.Some? then rs[i].account.value else m[rs[i].id].account.value))
  }

  lemma {:induction false} RemovedIdsContain(rs: seq<Removal>, id: Name)
    ensures id in RemovedIds(rs) <==> exists i :: 0 <= i < |rs| && rs[i].id == id
  {
    if rs != [] {
      var rest, last := rs[..|rs| - 1], rs[|rs| - 1];
      RemovedIdsContain(rest, id);
      assert id == last.id ==> rs[|rs| - 1].id == id;
      assert forall i :: 0 <= i < |rest| ==> rs[i] == rest[i];
    }
  }

  // ---- the removals of one page -----------------------------------------------------------------------

  lemma IdsOnceSnoc(rs: seq<Removal>)
    requires rs != []
    ensures var rest, last := rs[..|rs| - 1], rs[|rs| - 1];
            IdsOnce(rs) <==> IdsOnce(rest) && last.id != NO_ID && last.id !in RemovedIds(rest)
  {
    var rest, last := rs[..|rs| - 1], rs[|rs| - 1];
    RemovedIdsContain(rest, last.id);
    if IdsOnce(rest) && last.id != NO_ID && last.id !in RemovedIds(rest) {
      forall i, j | 0 <= i < j < |rs| ensures rs[i].id != rs[j].id {
        assert rest[i] == rs[i];
        if j < |rest| { assert rest[j] == rs[j]; }
      }
      forall i | 0 <= i < |rs| ensures rs[i].id != NO_ID {
        if i < |rest| { assert rest[i] == rs[i]; }
      }
    }
  }

  lemma FreshSnoc(gone: set<Name>, rs: seq<Removal>)
    requires rs != []
    ensures Fresh(gone, rs) <==> Fresh(gone, rs[..|rs| - 1]) && rs[|rs| - 1].id !in gone
  {
    assert rs == rs[..|rs| - 1] + [rs[|rs| - 1]];
  }

  lemma RemovedIdsSnoc(rs: seq<Removal>)
    requires rs != []
    ensures RemovedIds(rs) == RemovedIds(rs[..|rs| - 1]) + {rs[|rs| - 1].id}
  {
  }

  lemma {:induction false} RemovalsMeaning(s: Removing, rs: seq<Removal>)
    ensures RemoveEach(s, rs).Some? <==> IdsOnce(rs) && Fresh(s.gone, rs) && AllOwned(s.records, rs)
    ensures RemoveEach(s, rs).Some? ==>
              RemoveEach(s, rs).value
              == Removing(s.records - RemovedIds(rs), s.gone + RemovedIds(rs), s.tombstones + TombstonesOf(s.records, rs))
  {
    if rs == [] {
      assert s.records - {} == s.records;
    } else {
      hide IdsOnce, RemoveEach, Fresh, AllOwned, RemovedIds, TombstonesOf;
      var rest, last := rs[..|rs| - 1], rs[|rs| - 1];
      RemovalsMeaning(s, rest);
      IdsOnceSnoc(rs);
      FreshSnoc(s.gone, rs);
      RemovedIdsSnoc(rs);
      if RemoveEach(s, rest).Some? && last.id !in RemovedIds(rest) {
        assert s.records - RemovedIds(rest) - {last.id} == s.records - RemovedIds(rs);
      }
    }
  }

  // ---- the pages of a sync ----------------------------------------------------------------------------------

  /** Page `i` answers the cursor the call was made with. */
  ghost predicate Follows(s: CursorState, pages: seq<Page>, i: int)
    requires 0 <= i < |pages|
  {
    if i == 0 then pages[0].cursor == s.cursor
    else
      var before := pages[i - 1];
      pages[i].cursor == before.next && before.hasMore && before.next.Some? && before.next != before.cursor
  }

  ghost predicate Chained(s: CursorState, pages: seq<Page>) {
    forall i :: 0 <= i < |pages| ==> Follows(s, pages, i)
  }

  ghost predicate WellFormed(env: Name, pages: seq<Page>) {
    forall i :: 0 <= i < |pages| ==> pages[i].environment == env && PageIdsOnce(pages[i])
  }

  ghost predicate RequestsOnce(pages: seq<Page>) {
    forall i, j :: 0 <= i < j < |pages| ==> pages[j].requestId.Some? ==> pages[i].requestId != pages[j].requestId
  }

  /** Every removal says, or the sync already knows, which account it belongs to. */
  ghost predicate Owned(m: map<Name, Transaction>, pages: seq<Page>) {
    forall i :: 0 <= i < |pages| ==> AllOwned(UpsertAll(FoldPages(m, pages[..i]), Upserts(pages[i])), pages[i].removed)
  }

  /** What makes a run of pages acceptable, said without the staging. */
  ghost predicate Sound(s: CursorState, env: Name, pages: seq<Page>) {
    Chained(s, pages) && WellFormed(env, pages) && RequestsOnce(pages) && IdsOnce(AllRemoved(pages)) && Owned(s.records, pages)
  }

  ghost function Requests(pages: seq<Page>): set<Name> {
    if pages == [] then {} else WithRequest(Requests(pages[..|pages| - 1]), pages[|pages| - 1])
  }

  ghost function FoldTombstones(m: map<Name, Transaction>, pages: seq<Page>): seq<Tombstone>
    requires Owned(m, pages)
  {
    if pages == [] then []
    else
      var rest, last := pages[..|pages| - 1], pages[|pages| - 1];
      OwnedSnoc(m, pages);
      FoldTombstones(m, rest) + TombstonesOf(UpsertAll(FoldPages(m, rest), Upserts(last)), last.removed)
  }

  lemma OwnedSnoc(m: map<Name, Transaction>, pages: seq<Page>)
    requires pages != []
    ensures var rest, last := pages[..|pages| - 1], pages[|pages| - 1];
            Owned(m, pages) <==> Owned(m, rest) && AllOwned(UpsertAll(FoldPages(m, rest), Upserts(last)), last.removed)
  {
    hide FoldPages, UpsertAll, AllOwned;
    var rest := pages[..|pages| - 1];
    forall i | 0 <= i < |rest| ensures rest[..i] == pages[..i] && rest[i] == pages[i] {}
    if Owned(m, pages) {
      forall i | 0 <= i < |rest| ensures AllOwned(UpsertAll(FoldPages(m, rest[..i]), Upserts(rest[i])), rest[i].removed) {
        assert pages[i] == rest[i];
      }
    }
  }

  lemma {:induction false} RequestsContain(pages: seq<Page>, id: Name)
    ensures id in Requests(pages) <==> exists i :: 0 <= i < |pages| && pages[i].requestId == Some(id)
  {
    if pages != [] {
      var rest, last := pages[..|pages| - 1], pages[|pages| - 1];
      RequestsContain(rest, id);
      assert last.requestId == Some(id) ==> pages[|pages| - 1].requestId == Some(id);
      assert forall i :: 0 <= i < |rest| ==> rest[i] == pages[i];
    }
  }

  lemma RequestsSnoc(pages: seq<Page>)
    requires pages != []
    ensures var rest, last := pages[..|pages| - 1], pages[|pages| - 1];
            RequestsOnce(pages) <==> RequestsOnce(rest) && (last.requestId.Some? ==> last.requestId.value !in Requests(rest))
  {
    hide Requests;
    var rest, last := pages[..|pages| - 1], pages[|pages| - 1];
    assert forall i :: 0 <= i < |rest| ==> rest[i] == pages[i];
    if last.requestId.Some? { RequestsContain(rest, last.requestId.value); }
    if RequestsOnce(pages) {
      forall i, j | 0 <= i < j < |rest| && rest[j].requestId.Some? ensures rest[i].requestId != rest[j].requestId {
        assert pages[i] == rest[i] && pages[j] == rest[j];
      }
    }
  }

  lemma ChainedSnoc(s: CursorState, pages: seq<Page>)
    requires pages != []
    ensures var rest, last := pages[..|pages| - 1], pages[|pages| - 1];
            Chained(s, pages) <==> Chained(s, rest) && Follows(s, pages, |rest|)
  {
    var rest := pages[..|pages| - 1];
    forall i | 0 <= i < |rest| ensures Follows(s, rest, i) == Follows(s, pages, i) {}
    if Chained(s, pages) {
      forall i | 0 <= i < |rest| ensures Follows(s, rest, i) { assert Follows(s, pages, i); }
    }
  }

  lemma WellFormedSnoc(env: Name, pages: seq<Page>)
    requires pages != []
    ensures var rest, last := pages[..|pages| - 1], pages[|pages| - 1];
            WellFormed(env, pages) <==> WellFormed(env, rest) && last.environment == env && PageIdsOnce(last)
  {
    hide PageIdsOnce;
    var rest := pages[..|pages| - 1];
    assert forall i :: 0 <= i < |rest| ==> rest[i] == pages[i];
    if WellFormed(env, pages) {
      forall i | 0 <= i < |rest| ensures rest[i].environment == env && PageIdsOnce(rest[i]) {
        assert pages[i] == rest[i];
      }
    }
  }

  lemma RemovedSnoc(pages: seq<Page>)
    requires pages != []
    ensures var rest, last := pages[..|pages| - 1], pages[|pages| - 1];
            && (IdsOnce(AllRemoved(pages)) <==>
                  IdsOnce(AllRemoved(rest)) && IdsOnce(last.removed) && Fresh(RemovedIds(AllRemoved(rest)), last.removed))
            && RemovedIds(AllRemoved(pages)) == RemovedIds(AllRemoved(rest)) + RemovedIds(last.removed)
  {
    IdsOnceAppend(AllRemoved(pages[..|pages| - 1]), pages[|pages| - 1].removed);
  }

  lemma {:induction false} IdsOnceAppend(a: seq<Removal>, b: seq<Removal>)
    ensures IdsOnce(a + b) <==> IdsOnce(a) && IdsOnce(b) && Fresh(RemovedIds(a), b)
    ensures RemovedIds(a + b) == RemovedIds(a) + RemovedIds(b)
  {
    if b == [] {
      assert a + b == a && Fresh(RemovedIds(a), b) && IdsOnce(b);
    } else {
      hide IdsOnce, RemovedIds, Fresh;
      var rest, last := b[..|b| - 1], b[|b| - 1];
      IdsOnceAppend(a, rest);
      assert a + b == (a + rest) + [last] && b == rest + [last];
      PlusOne(a + rest, last, {});
      PlusOne(rest, last, RemovedIds(a));
    }
  }

  /** One more removal, for each of the three notions. */
  lemma PlusOne(rs: seq<Removal>, last: Removal, gone: set<Name>)
    ensures IdsOnce(rs + [last]) <==> IdsOnce(rs) && last.id != NO_ID && last.id !in RemovedIds(rs)
    ensures RemovedIds(rs + [last]) == RemovedIds(rs) + {last.id}
    ensures Fresh(gone, rs + [last]) <==> Fresh(gone, rs) && last.id !in gone
  {
    hide IdsOnce, RemovedIds, Fresh;
    var all := rs + [last];
    assert all[..|all| - 1] == rs && all[|all| - 1] == last;
    IdsOnceSnoc(all);
    RemovedIdsSnoc(all);
    FreshSnoc(gone, all);
  }

  /** Staging succeeds exactly for sound pages, and then holds their fold. */
  lemma {:induction false} StageMeaning(s: CursorState, env: Name, pages: seq<Page>)
    ensures Stage(s, env, pages).Some? <==> Sound(s, env, pages)
    ensures Stage(s, env, pages).Some? ==>
              Stage(s, env, pages).value
              == Staged(if pages == [] then s.cursor else pages[|pages| - 1].next, FoldPages(s.records, pages), Requests(pages),
                        RemovedIds(AllRemoved(pages)), FoldTombstones(s.records, pages))
  {
    if pages == [] {
    } else {
      hide Chained, WellFormed, RequestsOnce, IdsOnce, Owned, Fresh, AllOwned, FoldPages, Requests, RemovedIds, FoldTombstones,
           TombstonesOf, UpsertsOk, PageIdsOnce, UpsertAll, RemoveEach, AllRemoved, Stage, Upserts;
      var rest, last := pages[..|pages| - 1], pages[|pages| - 1];
      StageMeaning(s, env, rest);
      ChainedSnoc(s, pages);
      WellFormedSnoc(env, pages);
      PageIdsOnceMeaning(last);
      RequestsSnoc(pages);
      RemovedSnoc(pages);
      OwnedSnoc(s.records, pages);
      StageUnfold(s, env, pages);
      if Stage(s, env, rest).Some? {
        var st := Stage(s, env, rest).value;
        RemovalsMeaning(Removing(UpsertAll(st.records, Upserts(last)), st.gone, st.tombstones), last.removed);
        FoldUnfold(s.records, pages);
      }
    }
  }

  lemma StageUnfold(s: CursorState, env: Name, pages: seq<Page>)
    requires pages != []
    ensures var rest, last := pages[..|pages| - 1], pages[|pages| - 1];
            Stage(s, env, pages) == if Stage(s, env, rest).None? || (rest != [] && !Continues(rest[|rest| - 1])) then None
                                    else TakePage(Stage(s, env, rest).value, env, last)
  {
    hide TakePage, Continues;
  }

  lemma FoldUnfold(m: map<Name, Transaction>, pages: seq<Page>)
    requires pages != []
    ensures var rest, last := pages[..|pages| - 1], pages[|pages| - 1];
            && FoldPages(m, pages) == UpsertAll(FoldPages(m, rest), Upserts(last)) - RemovedIds(last.removed)
            && Requests(pages) == WithRequest(Requests(rest), last)
    ensures Owned(m, pages) ==>
              var rest, last := pages[..|pages| - 1], pages[|pages| - 1];
              var written := UpsertAll(FoldPages(m, rest), Upserts(last));
              && Owned(m, rest) && AllOwned(written, last.removed)
              && FoldTombstones(m, pages) == FoldTombstones(m, rest) + TombstonesOf(written, last.removed)
  {
    hide AllOwned, UpsertAll, Owned, RemovedIds, TombstonesOf;
    OwnedSnoc(m, pages);
  }

  /** A sync commits exactly for sound, normalisable pages that end properly, and what it
      commits is their fold and the last cursor. */
  lemma SyncCommitsExactly(s: CursorState, env: Name, pages: seq<Page>)
    ensures Complete(s, env, pages) <==>
              && pages != [] && Sound(s, env, pages)
              && (forall id :: id in FoldPages(s.records, pages) ==> FoldPages(s.records, pages)[id].normal)
              && (forall p :: p in pages ==> forall r :: r in p.removed ==> r.normal)
              && !pages[|pages| - 1].hasMore && pages[|pages| - 1].next.Some?
    ensures Complete(s, env, pages) ==>
              && Committed(s, env, pages) == CursorState(pages[|pages| - 1].next, FoldPages(s.records, pages))
              && BatchOf(s, env, pages).records == FoldPages(s.records, pages)
              && BatchOf(s, env, pages).tombstones == FoldTombstones(s.records, pages)
              && Some(BatchOf(s, env, pages).cursor) == pages[|pages| - 1].next
              && forall id :: id in BatchOf(s, env, pages).requests <==> exists i :: 0 <= i < |pages| && pages[i].requestId == Some(id)
  {
    hide Stage, Sound, FoldPages, FoldTombstones, Owned;
    StageMeaning(s, env, pages);
    forall id ensures id in Requests(pages) <==> exists i :: 0 <= i < |pages| && pages[i].requestId == Some(id) {
      RequestsContain(pages, id);
    }
  }

  /** A complete sync of `n` pages goes through exactly where at least `n` pages are allowed. */
  lemma PageLimitIsExact(s: CursorState, env: Name, maxPages: nat, replies: seq<Option<Page>>, n: nat)
    requires Answered(replies, n) && Complete(s, env, Pages(replies, n))
    ensures (exists m :: Ends(s, env, maxPages, replies, m)) <==> n <= maxPages
  {
    hide Complete;
    if n <= maxPages { assert Ends(s, env, maxPages, replies, n); }
    forall m: nat | Ends(s, env, maxPages, replies, m) ensures m == n {
      assert Ends(s, env, m + n, replies, m) && Ends(s, env, m + n, replies, n);
      EndsOnce(s, env, m + n, replies, m, n);
    }
  }

  lemma FoldSnoc(m: map<Name, Transaction>, pages: seq<Page>)
    requires pages != []
    ensures FoldPages(m, pages) == ApplyPage(FoldPages(m, pages[..|pages| - 1]), pages[|pages| - 1])
  {
    hide ApplyPage;
  }

  lemma FoldNothing(m: map<Name, Transaction>)
    ensures FoldPages(m, []) == m
  {
  }

  lemma {:induction false} FoldAppend(m: map<Name, Transaction>, a: seq<Page>, b: seq<Page>)
    ensures FoldPages(m, a + b) == FoldPages(FoldPages(m, a), b)
  {
    hide ApplyPage, FoldPages;
    if b == [] {
      assert a + b == a;
      FoldNothing(FoldPages(m, a));
    } else {
      FoldAppend(m, a, b[..|b| - 1]);
      assert (a + b)[..|a + b| - 1] == a + b[..|b| - 1];
      FoldSnoc(m, a + b);
      FoldSnoc(FoldPages(m, a), b);
    }
  }

  /** Two successful syncs in a row leave what one fold over all their pages gives. */
  lemma TwoSyncsAreOneFold(s: CursorState, env: Name, a: seq<Page>, b: seq<Page>)
    requires Complete(s, env, a) && Complete(Committed(s, env, a), env, b)
    ensures Committed(Committed(s, env, a), env, b) == CursorState(b[|b| - 1].next, FoldPages(s.records, a + b))
  {
    hide Complete, Committed, FoldPages, BatchOf, Sound, Owned, FoldTombstones;
    SyncCommitsExactly(s, env, a);
    SyncCommitsExactly(Committed(s, env, a), env, b);
    FoldAppend(s.records, a, b);
  }

  // ---- records named twice ------------------------------------------------------------------------------------

  ghost predicate Removes(page: Page, id: Name) { id in RemovedIds(page.removed) }

  lemma WritesMeaning(page: Page, id: Name)
    ensures Writes(page, id) <==> exists i :: 0 <= i < |Upserts(page)| && Upserts(page)[i].id == id
  {
    var all := Upserts(page);
    forall t ensures Sends(page, t) <==> t in all {}
    if Writes(page, id) {
      var t :| Sends(page, t) && t.id == id;
      assert t in all;
    }
    if i :| 0 <= i < |all| && all[i].id == id { assert Sends(page, all[i]); }
  }

  lemma {:induction false} UpsertKeys(m: map<Name, Transaction>, rs: seq<Transaction>, id: Name)
    ensures id in UpsertAll(m, rs) <==> id in m || exists i :: 0 <= i < |rs| && rs[i].id == id
  {
    if rs != [] {
      var rest := rs[..|rs| - 1];
      UpsertKeys(m, rest, id);
      assert forall i :: 0 <= i < |rest| ==> rest[i] == rs[i];
      assert rs[|rs| - 1].id == id ==> exists i :: 0 <= i < |rs| && rs[i].id == id;
    }
  }

  lemma PageKeys(m: map<Name, Transaction>, page: Page, id: Name)
    ensures id in ApplyPage(m, page) <==> (id in m || Writes(page, id)) && !Removes(page, id)
  {
    hide RemovedIds, UpsertAll, Writes;
    UpsertKeys(m, Upserts(page), id);
    WritesMeaning(page, id);
  }

  /** A page after `i` writes the id again. */
  ghost predicate WrittenAfter(pages: seq<Page>, i: nat, id: Name) {
    exists j :: i < j < |pages| && Writes(pages[j], id)
  }

  ghost predicate RemovedAt(pages: seq<Page>, i: nat, id: Name) {
    i < |pages| && Removes(pages[i], id)
  }

  lemma {:induction false} RemovedSomewhere(pages: seq<Page>, id: Name)
    ensures id in RemovedIds(AllRemoved(pages)) <==> exists i: nat :: RemovedAt(pages, i, id)
  {
    if pages != [] {
      hide Removes, AllRemoved, IdsOnce, Fresh;
      var rest, last := pages[..|pages| - 1], pages[|pages| - 1];
      RemovedSomewhere(rest, id);
      RemovedSnoc(pages);
      assert Removes(last, id) <==> id in RemovedIds(last.removed);
      forall i: nat ensures RemovedAt(pages, i, id) <==> RemovedAt(rest, i, id) || (i == |rest| && Removes(last, id)) {}
      if Removes(last, id) { assert RemovedAt(pages, |rest|, id); }
    }
  }

  /** With no id removed twice, a removed id is still held exactly when a later page writes it. */
  lemma {:induction false} HeldExactlyWhenRewritten(m: map<Name, Transaction>, pages: seq<Page>, i: nat, id: Name)
    requires IdsOnce(AllRemoved(pages)) && RemovedAt(pages, i, id)
    ensures id in FoldPages(m, pages) <==> WrittenAfter(pages, i, id)
  {
    hide Removes, Writes, AllRemoved, IdsOnce, Fresh, ApplyPage, RemovedIds;
    var rest, last := pages[..|pages| - 1], pages[|pages| - 1];
    PageKeys(FoldPages(m, rest), last, id);
    if i < |rest| {
      RemovedSnoc(pages);
      assert RemovedAt(rest, i, id);
      HeldExactlyWhenRewritten(m, rest, i, id);
      RemovedSomewhere(rest, id);
      NotRemovedAgain(rest, last, id);
      if WrittenAfter(rest, i, id) {
        var j :| i < j < |rest| && Writes(rest[j], id);
        assert pages[j] == rest[j];
      }
      if WrittenAfter(pages, i, id) && !Writes(last, id) {
        var j :| i < j < |pages| && Writes(pages[j], id);
        assert pages[j] == rest[j];
      }
    }
  }

  lemma NotRemovedAgain(rest: seq<Page>, last: Page, id: Name)
    requires id in RemovedIds(AllRemoved(rest)) && Fresh(RemovedIds(AllRemoved(rest)), last.removed)
    ensures !Removes(last, id)
  {
    RemovedIdsContain(last.removed, id);
  }

  // ---- what is held in the end --------------------------------------------------------------------------------

  lemma {:induction false} UpsertAt(m: map<Name, Transaction>, rs: seq<Transaction>, id: Name)
    requires UpsertsOk(rs)
    ensures forall i :: 0 <= i < |rs| && rs[i].id == id ==> id in UpsertAll(m, rs) && UpsertAll(m, rs)[id] == rs[i]
    ensures (forall i :: 0 <= i < |rs| ==> rs[i].id != id) && id in UpsertAll(m, rs) ==> id in m && UpsertAll(m, rs)[id] == m[id]
  {
    if rs != [] {
      var rest := rs[..|rs| - 1];
      UpsertAt(m, rest, id);
      assert forall i :: 0 <= i < |rest| ==> rest[i] == rs[i];
    }
  }

  /** What one page makes of one id. */
  lemma PageAt(m: map<Name, Transaction>, page: Page, id: Name)
    requires PageIdsOnce(page) && id in ApplyPage(m, page)
    ensures forall t :: Sends(page, t) && t.id == id ==> ApplyPage(m, page)[id] == t
    ensures !Writes(page, id) ==> id in m && ApplyPage(m, page)[id] == m[id]
  {
    hide UpsertAll, RemovedIds;
    PageIdsOnceMeaning(page);
    UpsertAt(m, Upserts(page), id);
    WritesMeaning(page, id);
    forall t | Sends(page, t) && t.id == id ensures ApplyPage(m, page)[id] == t {
      assert t in Upserts(page);
    }
  }

  /** Page `i` sent `t`; from then on no page removed its id, and no later page wrote it. */
  ghost predicate LastSent(pages: seq<Page>, i: nat, t: Transaction) {
    && i < |pages| && Sends(pages[i], t)
    && (forall j :: i <= j < |pages| ==> forall r :: r in pages[j].removed ==> r.id != t.id)
    && forall j :: i < j < |pages| ==> forall u :: Sends(pages[j], u) ==> u.id != t.id
  }

  ghost predicate NeverNamed(pages: seq<Page>, id: Name) {
    forall j :: 0 <= j < |pages| ==>
      (forall r :: r in pages[j].removed ==> r.id != id) && forall u :: Sends(pages[j], u) ==> u.id != id
  }

  /** `t` is what the pages, or the store before them, last said about its id. */
  ghost predicate LastWord(m: map<Name, Transaction>, pages: seq<Page>, t: Transaction) {
    || (exists i: nat :: LastSent(pages, i, t))
    || (NeverNamed(pages, t.id) && t.id in m && m[t.id] == t)
  }

  lemma RemovesOne(page: Page, id: Name)
    ensures Removes(page, id) <==> exists r :: r in page.removed && r.id == id
  {
    hide RemovedIds;
    RemovedIdsContain(page.removed, id);
  }

  lemma LastSentSnoc(pages: seq<Page>, t: Transaction)
    requires pages != []
    ensures var rest, last := pages[..|pages| - 1], pages[|pages| - 1];
            && ((exists i: nat :: LastSent(pages, i, t)) <==>
                  !Removes(last, t.id) && (Sends(last, t) || (!Writes(last, t.id) && exists i: nat :: LastSent(rest, i, t))))
            && (NeverNamed(pages, t.id) <==> NeverNamed(rest, t.id) && !Removes(last, t.id) && !Writes(last, t.id))
  {
    hide Removes, Sends;
    var rest, last := pages[..|pages| - 1], pages[|pages| - 1];
    RemovesOne(last, t.id);
    assert forall i :: 0 <= i < |rest| ==> rest[i] == pages[i];
    if i: nat :| LastSent(pages, i, t) {
      if i < |rest| { assert LastSent(rest, i, t); }
    }
    if !Removes(last, t.id) && Sends(last, t) { assert LastSent(pages, |rest|, t); }
    if !Removes(last, t.id) && !Writes(last, t.id) && exists i: nat :: LastSent(rest, i, t) {
      var i: nat :| LastSent(rest, i, t);
      assert LastSent(pages, i, t);
    }
    if NeverNamed(rest, t.id) && !Removes(last, t.id) && !Writes(last, t.id) {
      forall j | 0 <= j < |pages|
        ensures (forall r :: r in pages[j].removed ==> r.id != t.id) && forall u :: Sends(pages[j], u) ==> u.id != t.id
      {
        if j < |rest| { assert pages[j] == rest[j]; }
      }
    }
    if NeverNamed(pages, t.id) {
      forall j | 0 <= j < |rest|
        ensures (forall r :: r in rest[j].removed ==> r.id != t.id) && forall u :: Sends(rest[j], u) ==> u.id != t.id
      {
        assert pages[j] == rest[j];
      }
    }
  }

  lemma PageHolds(m: map<Name, Transaction>, page: Page, t: Transaction)
    requires PageIdsOnce(page)
    ensures t.id in ApplyPage(m, page) && ApplyPage(m, page)[t.id] == t
       <==> !Removes(page, t.id) && (Sends(page, t) || (!Writes(page, t.id) && t.id in m && m[t.id] == t))
  {
    hide ApplyPage, PageIdsOnce, Sends, Removes;
    PageKeys(m, page, t.id);
    if t.id in ApplyPage(m, page) {
      PageAt(m, page, t.id);
      if Writes(page, t.id) { var u :| Sends(page, u) && u.id == t.id; }
    }
  }

  /** The fold of the pages holds a transaction exactly when it is the last word on its id. */
  lemma {:induction false} FoldHoldsExactly(m: map<Name, Transaction>, pages: seq<Page>, t: Transaction)
    requires forall i :: 0 <= i < |pages| ==> PageIdsOnce(pages[i])
    ensures t.id in FoldPages(m, pages) && FoldPages(m, pages)[t.id] == t <==> LastWord(m, pages, t)
  {
    hide ApplyPage, PageIdsOnce, Removes, Writes, Sends;
    if pages == [] {
      FoldNothing(m);
    } else {
      hide FoldPages, LastSent, NeverNamed;
      var rest, last := pages[..|pages| - 1], pages[|pages| - 1];
      FoldHoldsExactly(m, rest, t);
      FoldSnoc(m, pages);
      LastSentSnoc(pages, t);
      PageHolds(FoldPages(m, rest), last, t);
    }
  }

  /** After a sync a transaction is held exactly as the last page that sent its id sent it, unless that or a
      later page removed the id; an id that no page names keeps what was held. */
  lemma HeldExactlyAsSent(s: CursorState, env: Name, pages: seq<Page>, t: Transaction)
    requires Complete(s, env, pages)
    ensures var held := Committed(s, env, pages).records;
            (t.id in held && held[t.id] == t) <==> LastWord(s.records, pages, t)
  {
    hide Complete, Committed, BatchOf, FoldPages, FoldTombstones, LastWord, PageIdsOnce, Chained, RequestsOnce, AllRemoved, Owned;
    SyncCommitsExactly(s, env, pages);
    FoldHoldsExactly(s.records, pages, t);
  }

  /** Every record is held under its own id, if it was before. */
  ghost predicate Keyed(m: map<Name, Transaction>) {
    forall id :: id in m ==> m[id].id == id
  }

  lemma {:induction false} UpsertsKeyed(m: map<Name, Transaction>, rs: seq<Transaction>)
    requires Keyed(m)
    ensures Keyed(UpsertAll(m, rs))
  {
    if rs != [] { UpsertsKeyed(m, rs[..|rs| - 1]); }
  }

  lemma {:induction false} FoldKeyed(m: map<Name, Transaction>, pages: seq<Page>)
    requires Keyed(m)
    ensures Keyed(FoldPages(m, pages))
  {
    hide UpsertAll, RemovedIds;
    if pages != [] {
      FoldKeyed(m, pages[..|pages| - 1]);
      UpsertsKeyed(FoldPages(m, pages[..|pages| - 1]), Upserts(pages[|pages| - 1]));
    }
  }

  lemma SyncsStayKeyed(s: CursorState, env: Name, pages: seq<Page>)
    requires Complete(s, env, pages) && Keyed(s.records)
    ensures Keyed(Committed(s, env, pages).records)
  {
    hide Complete, Committed, BatchOf, FoldPages, FoldTombstones, Sound, Keyed, Owned;
    SyncCommitsExactly(s, env, pages);
    FoldKeyed(s.records, pages);
  }

  /** No record is named twice, as a transaction and as a tombstone or by two tombstones. */
  ghost predicate NamesOnce(b: SourceBatch) {
    && (forall k :: 0 <= k < |b.tombstones| ==> b.tombstones[k].id !in b.records)
    && forall k, l :: 0 <= k < l < |b.tombstones| ==> b.tombstones[k].id != b.tombstones[l].id
  }

  lemma {:induction false} TombstoneIds(m: map<Name, Transaction>, pages: seq<Page>)
    requires Owned(m, pages)
    ensures var ts, rs := FoldTombstones(m, pages), AllRemoved(pages);
            |ts| == |rs| && forall k :: 0 <= k < |ts| ==> ts[k].id == rs[k].id
  {
    if pages != [] {
      hide Owned, AllOwned, UpsertAll, FoldPages, FoldTombstones, RemovedIds, AllRemoved, Upserts;
      FoldUnfold(m, pages);
      TombstoneIds(m, pages[..|pages| - 1]);
    }
  }

  /** A batch names every record once exactly when no page writes an id that an earlier page removed. */
  lemma BatchNamesOnceExactlyWhen(s: CursorState, env: Name, pages: seq<Page>)
    requires Complete(s, env, pages)
    ensures NamesOnce(BatchOf(s, env, pages)) <==> forall i: nat, id :: RemovedAt(pages, i, id) ==> !WrittenAfter(pages, i, id)
  {
    hide Complete, Committed, FoldPages, BatchOf, Owned, FoldTombstones, RemovedAt, WrittenAfter, Chained, WellFormed, RequestsOnce,
         AllRemoved, Removes, IdsOnce, RemovedIds;
    SyncCommitsExactly(s, env, pages);
    TombstoneIds(s.records, pages);
    var b, rs := BatchOf(s, env, pages), AllRemoved(pages);
    DistinctTombstones(b, rs);
    if NamesOnce(b) {
      forall i: nat, id | RemovedAt(pages, i, id) ensures !WrittenAfter(pages, i, id) {
        HeldExactlyWhenRewritten(s.records, pages, i, id);
        RemovedSomewhere(pages, id);
        RemovedIdsContain(rs, id);
      }
    }
    if forall i: nat, id :: RemovedAt(pages, i, id) ==> !WrittenAfter(pages, i, id) {
      forall k | 0 <= k < |b.tombstones| ensures b.tombstones[k].id !in b.records {
        var id := rs[k].id;
        RemovedIdsContain(rs, id);
        RemovedSomewhere(pages, id);
        var i: nat :| RemovedAt(pages, i, id);
        HeldExactlyWhenRewritten(s.records, pages, i, id);
      }
    }
  }

  lemma DistinctTombstones(b: SourceBatch, rs: seq<Removal>)
    requires IdsOnce(rs) && |b.tombstones| == |rs| && forall k :: 0 <= k < |rs| ==> b.tombstones[k].id == rs[k].id
    ensures forall k, l :: 0 <= k < l < |b.tombstones| ==> b.tombstones[k].id != b.tombstones[l].id
  {
  }

  /** Removing a known transaction on one page and sending it again on the next is accepted,
      and the batch then names it twice. */
  lemma ReaddedIsNamedTwice(env: Name, t: Transaction)
    requires t.id != NO_ID && t.account.Some? && t.normal
    ensures var s := CursorState(None, map[t.id := t]);
            var first := Page(None, env, None, [], [], [Removal(t.id, None, true)], true, Some(Name("c1")));
            var second := Page(Some(Name("c1")), env, None, [t], [], [], false, Some(Name("c2")));
            Complete(s, env, [first, second]) && !NamesOnce(BatchOf(s, env, [first, second]))
  {
    var s := CursorState(None, map[t.id := t]);
    var first := Page(None, env, None, [], [], [Removal(t.id, None, true)], true, Some(Name("c1")));
    var second := Page(Some(Name("c1")), env, None, [t], [], [], false, Some(Name("c2")));
    var pages := [first, second];
    TakesRemoval(s, env, t, first);
    var st := Staged(Some(Name("c1")), s.records - {t.id}, {}, {t.id}, [Tombstone(t.id, t.account.value)]);
    TakesUpsert(st, env, t, second);
    var none: seq<Page> := [];
    assert pages[..1] == [first] && [first][..0] == none;
    assert Stage(s, env, none) == Some(Begin(s)) && Stage(s, env, [first]) == Some(st);
    StageUnfold(s, env, pages);
    var end := Staged(second.next, st.records[t.id := t], {}, st.gone, st.tombstones);
    assert Stage(s, env, pages) == Some(end) && BatchOf(s, env, pages).tombstones[0].id in end.records;
  }

  lemma TakesRemoval(s: CursorState, env: Name, t: Transaction, page: Page)
    requires s == CursorState(None, map[t.id := t]) && t.id != NO_ID && t.account.Some?
    requires page == Page(None, env, None, [], [], [Removal(t.id, None, true)], true, Some(Name("c1")))
    ensures TakePage(Begin(s), env, page)
         == Some(Staged(page.next, s.records - {t.id}, {}, {t.id}, [Tombstone(t.id, t.account.value)]))
  {
    var none: seq<Removal> := [];
    var start := Removing(s.records, {}, []);
    assert page.removed[..0] == none && RemoveEach(start, none) == Some(start);
    assert Upserts(page) == [] && UpsertAll(s.records, Upserts(page)) == s.records;
    var ended := Remove(start, page.removed[0]).value;
    assert ended.gone == {t.id} && ended.tombstones == [Tombstone(t.id, t.account.value)];
  }

  lemma TakesUpsert(st: Staged, env: Name, t: Transaction, page: Page)
    requires st.cursor.Some? && t.id != NO_ID && page == Page(st.cursor, env, None, [t], [], [], false, Some(Name("c2")))
    ensures TakePage(st, env, page) == Some(Staged(page.next, st.records[t.id := t], st.requests, st.gone, st.tombstones))
  {
    var none: seq<Transaction> := [];
    assert Upserts(page) == [t] && [t][..0] == none;
    assert UpsertAll(st.records, [t]) == UpsertAll(st.records, none)[t.id := t];
  }
}
