/** One incremental Plaid sync: pages are staged, checked and committed together or not at all. */
module PlaidSync {
  import opened Names

  const NO_ID := Name("")

  /** A transaction; `normal` says whether it can be normalised into a source record. */
  datatype Transaction = Transaction(id: Name, account: Option<Name>, normal: bool, body: Name)

  datatype Removal = Removal(id: Name, account: Option<Name>, normal: bool)

  datatype Page = Page(cursor: Option<Name>, environment: Name, requestId: Option<Name>, added: seq<Transaction>,
                       modified: seq<Transaction>, removed: seq<Removal>, hasMore: bool, next: Option<Name>)

  /** The record kept of a removal, with the account the transaction belonged to. */
  datatype Tombstone = Tombstone(id: Name, account: Name)

  datatype CursorState = CursorState(cursor: Option<Name>, records: map<Name, Transaction>)

  datatype SourceBatch = SourceBatch(records: map<Name, Transaction>, tombstones: seq<Tombstone>, cursor: Name, requests: set<Name>)

  // ---- one page ----------------------------------------------------------------------------------

  function Upserts(page: Page): seq<Transaction> { page.added + page.modified }

  function UpsertAll(m: map<Name, Transaction>, rs: seq<Transaction>): map<Name, Transaction> {
    if rs == [] then m else UpsertAll(m, rs[..|rs| - 1])[rs[|rs| - 1].id := rs[|rs| - 1]]
  }

  ghost predicate UpsertsOk(rs: seq<Transaction>) {
    (forall i :: 0 <= i < |rs| ==> rs[i].id != NO_ID) && (forall i, j :: 0 <= i < j < |rs| ==> rs[i].id != rs[j].id)
  }

  datatype Removing = Removing(records: map<Name, Transaction>, gone: set<Name>, tombstones: seq<Tombstone>)

  /** The account on the removal itself, else on the transaction it removes. */
  function Owner(m: map<Name, Transaction>, r: Removal): Option<Name> {
    if r.account.Some? then r.account else if r.id in m then m[r.id].account else None
  }

  function Remove(s: Removing, r: Removal): Option<Removing> {
    if r.id == NO_ID || r.id in s.gone || Owner(s.records, r).None? then None
    else Some(Removing(s.records - {r.id}, s.gone + {r.id}, s.tombstones + [Tombstone(r.id, Owner(s.records, r).value)]))
  }

  function RemoveEach(s: Removing, rs: seq<Removal>): Option<Removing> {
    if rs == [] then Some(s)
    else
      match RemoveEach(s, rs[..|rs| - 1])
      case None => None
      case Some(t) => Remove(t, rs[|rs| - 1])
  }

  datatype Staged = Staged(cursor: Option<Name>, records: map<Name, Transaction>, requests: set<Name>, gone: set<Name>,
                           tombstones: seq<Tombstone>)

  predicate Expected(st: Staged, env: Name, page: Page) {
    && page.cursor == st.cursor && page.environment == env
    && (page.requestId.Some? ==> page.requestId.value !in st.requests)
  }

  function WithRequest(requests: set<Name>, page: Page): set<Name> {
    if page.requestId.Some? then requests + {page.requestId.value} else requests
  }

  ghost function TakePage(st: Staged, env: Name, page: Page): Option<Staged> {
    if !Expected(st, env, page) || !UpsertsOk(Upserts(page)) then None
    else
      match RemoveEach(Removing(UpsertAll(st.records, Upserts(page)), st.gone, st.tombstones), page.removed)
      case None => None
      case Some(r) => Some(Staged(page.next, r.records, WithRequest(st.requests, page), r.gone, r.tombstones))
  }

  // ---- all pages -----------------------------------------------------------------------------------

  /** The page announces another one, at a new cursor. */
  predicate Continues(page: Page) {
    page.hasMore && page.next.Some? && page.next != page.cursor
  }

  function Begin(s: CursorState): Staged { Staged(s.cursor, s.records, {}, {}, []) }

  /** What is staged after these pages; every page but the last was continued. */
  ghost function Stage(s: CursorState, env: Name, pages: seq<Page>): Option<Staged> {
    if pages == [] then Some(Begin(s))
    else
      match Stage(s, env, pages[..|pages| - 1])
      case None => None
      case Some(st) =>
        if |pages| > 1 && !Continues(pages[|pages| - 2]) then None else TakePage(st, env, pages[|pages| - 1])
  }

  predicate AllNormal(st: Staged, pages: seq<Page>) {
    (forall id :: id in st.records ==> st.records[id].normal)
    && forall p :: p in pages ==> forall r :: r in p.removed ==> r.normal
  }

  /** The pages form one complete, consistent sync. */
  ghost predicate Complete(s: CursorState, env: Name, pages: seq<Page>) {
    && pages != []
    && Stage(s, env, pages).Some? && AllNormal(Stage(s, env, pages).value, pages)
    && !pages[|pages| - 1].hasMore && pages[|pages| - 1].next.Some?
  }

  ghost predicate Answered(replies: seq<Option<Page>>, n: nat) {
    n <= |replies| && forall i :: 0 <= i < n ==> replies[i].Some?
  }

  ghost function Pages(replies: seq<Option<Page>>, n: nat): (r: seq<Page>)
    requires Answered(replies, n)
    ensures |r| == n && forall i :: 0 <= i < n ==> r[i] == replies[i].value
  {
    seq(n, i requires 0 <= i < n => replies[i].value)
  }

  /** The sync ends well after `n` calls. */
  ghost predicate Ends(s: CursorState, env: Name, maxPages: nat, replies: seq<Option<Page>>, n: nat) {
    n <= maxPages && Answered(replies, n) && Complete(s, env, Pages(replies, n))
  }

  ghost function Committed(s: CursorState, env: Name, pages: seq<Page>): CursorState
    requires Complete(s, env, pages)
  {
    CursorState(pages[|pages| - 1].next, Stage(s, env, pages).value.records)
  }

  ghost function BatchOf(s: CursorState, env: Name, pages: seq<Page>): SourceBatch
    requires Complete(s, env, pages)
  {
    var st := Stage(s, env, pages).value;
    SourceBatch(st.records, st.tombstones, pages[|pages| - 1].next.value, st.requests)
  }

  // ---- nothing later mends a failed prefix ------------------------------------------------------------

  lemma {:induction false} StaysBroken(s: CursorState, env: Name, pages: seq<Page>, n: nat)
    requires n <= |pages| && Stage(s, env, pages[..n]).None?
    ensures Stage(s, env, pages).None?
  {
    if n == |pages| {
      assert pages[..n] == pages;
    } else {
      assert pages[..|pages| - 1][..n] == pages[..n];
      StaysBroken(s, env, pages[..|pages| - 1], n);
    }
  }

  lemma {:induction false} StaysUncontinued(s: CursorState, env: Name, pages: seq<Page>, n: nat)
    requires 0 < n < |pages| && !Continues(pages[n - 1])
    ensures Stage(s, env, pages).None?
  {
    hide TakePage;
    if n < |pages| - 1 { StaysUncontinued(s, env, pages[..|pages| - 1], n); }
  }

  lemma PrefixPages(replies: seq<Option<Page>>, n: nat, m: nat)
    requires n <= m && Answered(replies, m)
    ensures Answered(replies, n) && Pages(replies, m)[..n] == Pages(replies, n)
  {
  }

  ghost predicate NoneEnds(s: CursorState, env: Name, maxPages: nat, replies: seq<Option<Page>>) {
    forall n :: !Ends(s, env, maxPages, replies, n)
  }

  /** A call that goes wrong after `n` good pages ends the sync without success. */
  lemma Fails(s: CursorState, env: Name, maxPages: nat, replies: seq<Option<Page>>, n: nat)
    requires Answered(replies, n) && n < |replies| && forall i :: 0 <= i < n ==> Continues(replies[i].value)
    requires replies[n].Some? ==> Stage(s, env, Pages(replies, n + 1)).None?
    ensures NoneEnds(s, env, maxPages, replies)
  {
    hide Stage;
    forall m: nat ensures !Ends(s, env, maxPages, replies, m) {
      if Ends(s, env, maxPages, replies, m) && m > n {
        PrefixPages(replies, n + 1, m);
        StaysBroken(s, env, Pages(replies, m), n + 1);
      }
    }
  }

  lemma FailsAtEnd(s: CursorState, env: Name, maxPages: nat, replies: seq<Option<Page>>, n: nat)
    requires Answered(replies, n) && (n == |replies| || n == maxPages) && forall i :: 0 <= i < n ==> Continues(replies[i].value)
    ensures NoneEnds(s, env, maxPages, replies)
  {
    hide Stage;
  }

  /** A page that neither ends the sync properly nor continues it. */
  lemma FailsAtPage(s: CursorState, env: Name, maxPages: nat, replies: seq<Option<Page>>, n: nat)
    requires Answered(replies, n + 1) && forall i :: 0 <= i < n ==> Continues(replies[i].value)
    requires !Continues(replies[n].value) && !Complete(s, env, Pages(replies, n + 1))
    ensures NoneEnds(s, env, maxPages, replies)
  {
    hide Stage, Complete;
    forall m: nat ensures !Ends(s, env, maxPages, replies, m) {
      if Ends(s, env, maxPages, replies, m) {
        EndIsNotContinued(s, env, Pages(replies, m));
        if m > n + 1 { StaysUncontinued(s, env, Pages(replies, m), n + 1); }
      }
    }
  }

  lemma EndIsNotContinued(s: CursorState, env: Name, pages: seq<Page>)
    requires Complete(s, env, pages)
    ensures pages != [] && !Continues(pages[|pages| - 1]) && Stage(s, env, pages).Some?
  {
    hide Stage;
  }

  lemma EndsOnce(s: CursorState, env: Name, maxPages: nat, replies: seq<Option<Page>>, n: nat, m: nat)
    requires Ends(s, env, maxPages, replies, n) && Ends(s, env, maxPages, replies, m)
    ensures n == m
  {
    hide Stage, Complete;
    EndIsNotContinued(s, env, Pages(replies, n));
    EndIsNotContinued(s, env, Pages(replies, m));
    if n < m { StaysUncontinued(s, env, Pages(replies, m), n); }
    if m < n { StaysUncontinued(s, env, Pages(replies, n), m); }
  }

  lemma StageStep(s: CursorState, env: Name, replies: seq<Option<Page>>, n: nat)
    requires Answered(replies, n + 1) && (n > 0 ==> Continues(replies[n - 1].value))
    requires Stage(s, env, Pages(replies, n)).Some?
    ensures Stage(s, env, Pages(replies, n + 1)) == TakePage(Stage(s, env, Pages(replies, n)).value, env, replies[n].value)
  {
    hide TakePage;
    assert Pages(replies, n + 1)[..n] == Pages(replies, n);
  }

  // ---- the adapter ----------------------------------------------------------------------------------------

  class PlaidIngestionAdapter {
    var cursor: Option<Name>
    var records: map<Name, Transaction>
    const environment: Name
    const maxPages: nat

    ghost function State(): CursorState
      reads this
    {
      CursorState(cursor, records)
    }

    constructor (state: CursorState, environment: Name, maxPages: nat)
      requires maxPages >= 1
      ensures State() == state && this.environment == environment && this.maxPages == maxPages
    {
      cursor, records, this.environment, this.maxPages := state.cursor, state.records, environment, maxPages;
    }

    /** Read pages until one says there are no more. The client's answer to the call number `i`
        is `replies[i]`; a missing answer is a failed call. */
    method ReadBatch(replies: seq<Option<Page>>) returns (batch: Option<SourceBatch>)
      modifies this
      ensures batch.Some? <==> exists n :: Ends(old(State()), environment, maxPages, replies, n)
      ensures batch.None? ==> State() == old(State())
      ensures forall n :: Ends(old(State()), environment, maxPages, replies, n) ==>
                && State() == Committed(old(State()), environment, Pages(replies, n))
                && batch == Some(BatchOf(old(State()), environment, Pages(replies, n)))
    {
      hide TakePage, Stage, AllNormal;
      ghost var s := State();
      var st := Staged(cursor, records, {}, {}, []);
      StageNothing(s, environment, replies);
      var n := 0;
      while n < maxPages
        invariant n <= maxPages && Answered(replies, n)
        invariant forall i :: 0 <= i < n ==> Continues(replies[i].value)
        invariant Stage(s, environment, Pages(replies, n)) == Some(st)
        invariant State() == s
      {
        if n >= |replies| {
          FailsAtEnd(s, environment, maxPages, replies, n);
          return None;
        }
        if replies[n].None? {
          Fails(s, environment, maxPages, replies, n);
          return None;
        }
        var page := replies[n].value;
        StageStep(s, environment, replies, n);
        var taken := ReadPage(st, page);
        if taken.None? {
          Fails(s, environment, maxPages, replies, n);
          return None;
        }
        st := taken.value;
        ghost var pages := Pages(replies, n + 1);
        if !page.hasMore {
          var normal := CanNormalise(st, replies, n + 1);
          if page.next.None? || !normal {
            FailsAtPage(s, environment, maxPages, replies, n);
            return None;
          }
          records := st.records;
          cursor := page.next;
          assert Ends(s, environment, maxPages, replies, n + 1);
          forall m: nat | Ends(s, environment, maxPages, replies, m) ensures m == n + 1 {
            EndsOnce(s, environment, maxPages, replies, m, n + 1);
          }
          return Some(SourceBatch(st.records, st.tombstones, page.next.value, st.requests));
        }
        if page.next.None? || page.next == page.cursor {
          FailsAtPage(s, environment, maxPages, replies, n);
          return None;
        }
        n := n + 1;
      }
      FailsAtEnd(s, environment, maxPages, replies, n);
      return None;
    }

    /** Check one page and stage its changes. */
    method ReadPage(st: Staged, page: Page) returns (r: Option<Staged>)
      ensures r == TakePage(st, environment, page)
    {
      if page.cursor != st.cursor || page.environment != environment
         || (page.requestId.Some? && page.requestId.value in st.requests)
      {
        return None;
      }
      var staged := StageUpserts(st.records, Upserts(page));
      if staged.None? {
        return None;
      }
      var removed := StageRemovals(Removing(staged.value, st.gone, st.tombstones), page.removed);
      if removed.None? {
        return None;
      }
      r := Some(Staged(page.next, removed.value.records, WithRequest(st.requests, page), removed.value.gone, removed.value.tombstones));
    }

    static method StageUpserts(m: map<Name, Transaction>, rs: seq<Transaction>) returns (r: Option<map<Name, Transaction>>)
      ensures r == if UpsertsOk(rs) then Some(UpsertAll(m, rs)) else None
    {
      var staged, pageIds := m, {};
      for n := 0 to |rs|
        invariant staged == UpsertAll(m, rs[..n]) && UpsertsOk(rs[..n])
        invariant forall id :: id in pageIds <==> exists i :: 0 <= i < n && rs[i].id == id
      {
        assert rs[..n + 1][..n] == rs[..n];
        if rs[n].id == NO_ID || rs[n].id in pageIds {
          return None;
        }
        pageIds := pageIds + {rs[n].id};
        staged := staged[rs[n].id := rs[n]];
      }
      assert rs[..|rs|] == rs;
      r := Some(staged);
    }

    static method StageRemovals(s: Removing, rs: seq<Removal>) returns (r: Option<Removing>)
      ensures r == RemoveEach(s, rs)
    {
      var t := s;
      for n := 0 to |rs|
        invariant RemoveEach(s, rs[..n]) == Some(t)
      {
        assert rs[..n + 1][..n] == rs[..n];
        var removed := rs[n];
        if removed.id == NO_ID || removed.id in t.gone {
          RemovalsStayBroken(s, rs, n + 1);
          return None;
        }
        var prior := if removed.id in t.records then Some(t.records[removed.id]) else None;
        var account := removed.account;
        if account.None? {
          if prior.None? || prior.value.account.None? {
            RemovalsStayBroken(s, rs, n + 1);
            return None;
          }
          account := prior.value.account;
        }
        t := Removing(t.records - {removed.id}, t.gone + {removed.id}, t.tombstones + [Tombstone(removed.id, account.value)]);
      }
      assert rs[..|rs|] == rs;
      r := Some(t);
    }

    static method CanNormalise(st: Staged, replies: seq<Option<Page>>, n: nat) returns (r: bool)
      requires Answered(replies, n)
      ensures r == AllNormal(st, Pages(replies, n))
    {
      r := forall id :: id in st.records ==> st.records[id].normal;
      r := r && forall i :: 0 <= i < n ==> forall k :: 0 <= k < |replies[i].value.removed| ==> replies[i].value.removed[k].normal;
      NormalByIndex(st, replies, n);
    }
  }

  lemma NormalByIndex(st: Staged, replies: seq<Option<Page>>, n: nat)
    requires Answered(replies, n)
    ensures AllNormal(st, Pages(replies, n)) <==>
              && (forall id :: id in st.records ==> st.records[id].normal)
              && forall i :: 0 <= i < n ==> forall k :: 0 <= k < |replies[i].value.removed| ==> replies[i].value.removed[k].normal
  {
    var pages := Pages(replies, n);
    if AllNormal(st, pages) {
      forall i, k | 0 <= i < n && 0 <= k < |replies[i].value.removed| ensures replies[i].value.removed[k].normal {
        assert pages[i] in pages && pages[i].removed[k] in pages[i].removed;
      }
    }
  }

  lemma StageNothing(s: CursorState, env: Name, replies: seq<Option<Page>>)
    ensures Stage(s, env, Pages(replies, 0)) == Some(Begin(s))
  {
  }

  lemma {:induction false} RemovalsStayBroken(s: Removing, rs: seq<Removal>, n: nat)
    requires n <= |rs| && RemoveEach(s, rs[..n]).None?
    ensures RemoveEach(s, rs).None?
  {
    if n == |rs| {
      assert rs[..n] == rs;
    } else {
      assert rs[..|rs| - 1][..n] == rs[..n];
      RemovalsStayBroken(s, rs[..|rs| - 1], n);
    }
  }
}
