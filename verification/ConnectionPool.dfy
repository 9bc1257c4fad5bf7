/** A bounded pool of database connections shared by threads: every step that the pool's
    lock makes atomic, and what any interleaving of them keeps. */
module ConnectionPool {
  import opened Names

  /** A physical connection. */
  type Connection = Name

  /** A borrow handed to a caller, released at most once. */
  datatype Borrow = Borrow(connection: Connection, released: bool)

  /** The pool's own fields, with what the callers hold: threads that are opening a
      connection, borrows, and connections on their way back. */
  datatype Pool = Pool(idle: seq<Connection>, created: int, opening: nat, borrows: seq<Borrow>, returning: seq<Connection>)

  datatype Step =
    | Enter(usable: set<Connection>)
    | Opened(connection: Connection)
    | OpenFailed
    | Close(borrow: nat)
    | Release(position: nat, sound: bool)

  /** What a thread that entered the pool leaves with. */
  datatype Entry = Lent(connection: Connection) | MayOpen | Full

  // ---- the steps ---------------------------------------------------------------------------------

  /** Drop unusable connections off the end of the idle list, forgetting each. */
  function Trim(p: Pool, usable: set<Connection>): Pool
    decreases |p.idle|
  {
    if p.idle == [] || p.idle[|p.idle| - 1] in usable then p
    else Trim(p.(idle := p.idle[..|p.idle| - 1], created := p.created - 1), usable)
  }

  function EntryOf(p: Pool, maxSize: nat, usable: set<Connection>): Entry {
    var q := Trim(p, usable);
    if q.idle != [] then Lent(q.idle[|q.idle| - 1]) else if q.created < maxSize then MayOpen else Full
  }

  function Apply(p: Pool, maxSize: nat, s: Step): Pool {
    match s
    case Enter(usable) =>
      var q := Trim(p, usable);
      (match EntryOf(p, maxSize, usable)
       case Lent(c) => q.(idle := if q.idle == [] then [] else q.idle[..|q.idle| - 1], borrows := q.borrows + [Borrow(c, false)])
       case MayOpen => q.(created := q.created + 1, opening := q.opening + 1)
       case Full => q)
    case Opened(c) => if p.opening == 0 then p else p.(opening := p.opening - 1, borrows := p.borrows + [Borrow(c, false)])
    case OpenFailed => if p.opening == 0 then p else p.(opening := p.opening - 1, created := p.created - 1)
    case Close(i) =>
      if i >= |p.borrows| || p.borrows[i].released then p
      else p.(borrows := p.borrows[i := Borrow(p.borrows[i].connection, true)], returning := p.returning + [p.borrows[i].connection])
    case Release(k, usable) =>
      if k >= |p.returning| then p
      else
        var rest := p.returning[..k] + p.returning[k + 1..];
        if usable then p.(returning := rest, idle := p.idle + [p.returning[k]])
        else p.(returning := rest, created := p.created - 1)
  }

  // ---- the monitor ----------------------------------------------------------------------------------

  class BoundedPool {
    const maxSize: nat
    var idle: seq<Connection>
    var created: int
    ghost var opening: nat
    var borrows: seq<Borrow>
    var returning: seq<Connection>

    ghost function State(): Pool
      reads this
    {
      Pool(idle, created, opening, borrows, returning)
    }

    constructor (maxSize: nat)
      ensures this.maxSize == maxSize && State() == Pool([], 0, 0, [], [])
    {
      this.maxSize := maxSize;
      idle, created, opening, borrows, returning := [], 0, 0, [], [];
    }

    /** One pass under the lock; a full pool makes the thread wait and enter again, or give up. */
    method TryAcquire(usable: set<Connection>) returns (e: Entry)
      modifies this
      ensures e == EntryOf(old(State()), maxSize, usable)
      ensures State() == Apply(old(State()), maxSize, Enter(usable))
    {
      while idle != []
        invariant Trim(old(State()), usable) == Trim(State(), usable)
        decreases |idle|
      {
        var connection := idle[|idle| - 1];
        if connection in usable {
          idle := idle[..|idle| - 1];
          borrows := borrows + [Borrow(connection, false)];
          return Lent(connection);
        }
        idle := idle[..|idle| - 1];
        created := created - 1;
      }
      if created < maxSize {
        created := created + 1;
        opening := opening + 1;
        return MayOpen;
      }
      return Full;
    }

    /** A thread that was allowed to open a connection got one. */
    method FinishOpening(c: Connection)
      requires opening > 0
      modifies this`opening, this`borrows
      ensures State() == Apply(old(State()), maxSize, Opened(c))
    {
      opening := opening - 1;
      borrows := borrows + [Borrow(c, false)];
    }

    method AbandonOpening()
      requires opening > 0
      modifies this`opening, this`created
      ensures State() == Apply(old(State()), maxSize, OpenFailed)
    {
      opening := opening - 1;
      created := created - 1;
    }

    /** Closing a borrow sends its connection back the first time, and does nothing after that. */
    method CloseBorrow(i: nat)
      requires i < |borrows|
      modifies this`borrows, this`returning
      ensures State() == Apply(old(State()), maxSize, Close(i))
    {
      if !borrows[i].released {
        returning := returning + [borrows[i].connection];
        borrows := borrows[i := Borrow(borrows[i].connection, true)];
      }
    }

    method ReleaseConnection(k: nat, usable: bool)
      requires k < |returning|
      modifies this
      ensures State() == Apply(old(State()), maxSize, Release(k, usable))
    {
      var c := returning[k];
      returning := returning[..k] + returning[k + 1..];
      if usable {
        idle := idle + [c];
      } else {
        created := created - 1;
      }
    }
  }

  // ---- what every interleaving keeps --------------------------------------------------------------------

  function LiveCount(bs: seq<Borrow>): nat {
    if bs == [] then 0 else LiveCount(bs[..|bs| - 1]) + if bs[|bs| - 1].released then 0 else 1
  }

  function Occurs(cs: seq<Connection>, c: Connection): nat {
    if cs == [] then 0 else Occurs(cs[..|cs| - 1], c) + if cs[|cs| - 1] == c then 1 else 0
  }

  function Borrowed(bs: seq<Borrow>, c: Connection): nat {
    if bs == [] then 0
    else Borrowed(bs[..|bs| - 1], c) + if bs[|bs| - 1] == Borrow(c, false) then 1 else 0
  }

  /** In how many places a connection is. */
  function Places(p: Pool, c: Connection): nat {
    Occurs(p.idle, c) + Borrowed(p.borrows, c) + Occurs(p.returning, c)
  }

  ghost predicate Inv(p: Pool, maxSize: nat) {
    && |p.idle| + LiveCount(p.borrows) + |p.returning| + p.opening == p.created <= maxSize
    && forall c :: Places(p, c) <= 1
  }

  /** A newly opened connection is a new one. */
  ghost predicate Possible(p: Pool, s: Step) {
    s.Opened? ==> Places(p, s.connection) == 0
  }

  lemma OccursSnoc(cs: seq<Connection>, last: Connection, c: Connection)
    ensures Occurs(cs + [last], c) == Occurs(cs, c) + if last == c then 1 else 0
  {
    assert (cs + [last])[..|cs|] == cs;
  }

  lemma {:induction false} OccursAppend(a: seq<Connection>, b: seq<Connection>, c: Connection)
    ensures Occurs(a + b, c) == Occurs(a, c) + Occurs(b, c)
  {
    if b == [] {
      assert a + b == a;
    } else {
      assert (a + b)[..|a + b| - 1] == a + b[..|b| - 1];
      OccursAppend(a, b[..|b| - 1], c);
    }
  }

  lemma BorrowSnoc(bs: seq<Borrow>, b: Borrow, c: Connection)
    ensures Borrowed(bs + [b], c) == Borrowed(bs, c) + if b == Borrow(c, false) then 1 else 0
    ensures LiveCount(bs + [b]) == LiveCount(bs) + if b.released then 0 else 1
  {
    assert (bs + [b])[..|bs|] == bs;
  }

  /** Marking a live borrow as released takes it out of both counts. */
  lemma {:induction false} ReleaseCounts(bs: seq<Borrow>, i: nat, c: Connection)
    requires i < |bs| && !bs[i].released
    ensures var after := bs[i := Borrow(bs[i].connection, true)];
            && LiveCount(after) == LiveCount(bs) - 1
            && Borrowed(after, c) == Borrowed(bs, c) - if bs[i].connection == c then 1 else 0
  {
    var after := bs[i := Borrow(bs[i].connection, true)];
    var rest := bs[..|bs| - 1];
    if i < |rest| {
      ReleaseCounts(rest, i, c);
      assert after[..|bs| - 1] == rest[i := Borrow(bs[i].connection, true)];
    } else {
      assert after[..|bs| - 1] == rest;
    }
  }

  lemma {:induction false} TrimKeeps(p: Pool, maxSize: nat, usable: set<Connection>)
    requires Inv(p, maxSize)
    ensures Inv(Trim(p, usable), maxSize)
    decreases |p.idle|
  {
    hide Occurs, LiveCount, Borrowed;
    if p.idle != [] && p.idle[|p.idle| - 1] !in usable {
      var rest, last := p.idle[..|p.idle| - 1], p.idle[|p.idle| - 1];
      assert p.idle == rest + [last];
      var q := p.(idle := rest, created := p.created - 1);
      forall c ensures Places(q, c) <= 1 { OccursSnoc(rest, last, c); assert Places(p, c) <= 1; }
      TrimKeeps(q, maxSize, usable);
    }
  }

  lemma LendKeeps(p: Pool, maxSize: nat)
    requires Inv(p, maxSize) && p.idle != []
    ensures Inv(p.(idle := p.idle[..|p.idle| - 1], borrows := p.borrows + [Borrow(p.idle[|p.idle| - 1], false)]), maxSize)
  {
    hide Occurs, LiveCount, Borrowed;
    var rest, last := p.idle[..|p.idle| - 1], p.idle[|p.idle| - 1];
    assert p.idle == rest + [last];
    var q := p.(idle := rest, borrows := p.borrows + [Borrow(last, false)]);
    BorrowSnoc(p.borrows, Borrow(last, false), last);
    forall c ensures Places(q, c) <= 1 {
      OccursSnoc(rest, last, c);
      BorrowSnoc(p.borrows, Borrow(last, false), c);
      assert Places(p, c) <= 1;
    }
  }

  lemma CloseKeeps(p: Pool, maxSize: nat, i: nat)
    requires Inv(p, maxSize) && i < |p.borrows| && !p.borrows[i].released
    ensures Inv(Apply(p, maxSize, Close(i)), maxSize)
  {
    hide Occurs, LiveCount, Borrowed;
    var q := Apply(p, maxSize, Close(i));
    ReleaseCounts(p.borrows, i, p.borrows[i].connection);
    forall c ensures Places(q, c) <= 1 {
      ReleaseCounts(p.borrows, i, c);
      OccursSnoc(p.returning, p.borrows[i].connection, c);
      assert Places(p, c) <= 1;
    }
  }

  lemma ReturnKeeps(p: Pool, maxSize: nat, k: nat, usable: bool)
    requires Inv(p, maxSize) && k < |p.returning|
    ensures Inv(Apply(p, maxSize, Release(k, usable)), maxSize)
  {
    hide Occurs, LiveCount, Borrowed;
    var q := Apply(p, maxSize, Release(k, usable));
    var before, after, back := p.returning[..k], p.returning[k + 1..], p.returning[k];
    assert p.returning == (before + [back]) + after;
    forall c ensures Places(q, c) <= 1 {
      OccursAppend(before + [back], after, c);
      OccursSnoc(before, back, c);
      OccursAppend(before, after, c);
      OccursSnoc(p.idle, back, c);
      assert Places(p, c) <= 1;
    }
  }

  lemma StepKeepsInv(p: Pool, maxSize: nat, s: Step)
    requires Inv(p, maxSize) && Possible(p, s)
    ensures Inv(Apply(p, maxSize, s), maxSize)
  {
    hide Occurs, LiveCount, Borrowed, Trim;
    match s {
      case Enter(usable) =>
        TrimKeeps(p, maxSize, usable);
        var q := Trim(p, usable);
        if q.idle != [] {
          LendKeeps(q, maxSize);
        } else {
          var r := Apply(p, maxSize, s);
          forall c ensures Places(r, c) <= 1 { assert Places(q, c) <= 1; }
        }
      case Opened(c) =>
        if p.opening > 0 {
          var q := Apply(p, maxSize, s);
          BorrowSnoc(p.borrows, Borrow(c, false), c);
          forall d ensures Places(q, d) <= 1 {
            BorrowSnoc(p.borrows, Borrow(c, false), d);
            assert Places(p, d) <= 1;
          }
        }
      case OpenFailed =>
        assert forall c :: Places(Apply(p, maxSize, s), c) == Places(p, c);
      case Close(i) =>
        if i < |p.borrows| && !p.borrows[i].released { CloseKeeps(p, maxSize, i); }
      case Release(k, usable) =>
        if k < |p.returning| { ReturnKeeps(p, maxSize, k, usable); }
    }
  }

  ghost predicate Run(maxSize: nat, ps: seq<Pool>, steps: seq<Step>) {
    && |ps| == |steps| + 1 && ps[0] == Pool([], 0, 0, [], [])
    && forall i :: 0 <= i < |steps| ==> Possible(ps[i], steps[i]) && ps[i + 1] == Apply(ps[i], maxSize, steps[i])
  }

  /** Over any interleaving, the connections idle, lent, on their way back or being opened are
      exactly those counted as created, never more than the bound, and each in one place. */
  lemma {:induction false} EveryRunKeepsInv(maxSize: nat, ps: seq<Pool>, steps: seq<Step>, n: nat)
    requires Run(maxSize, ps, steps) && n <= |steps|
    ensures Inv(ps[n], maxSize)
  {
    hide Apply, Possible, Inv;
    if n == 0 {
      EmptyPool(maxSize);
    } else {
      EveryRunKeepsInv(maxSize, ps, steps, n - 1);
      StepKeepsInv(ps[n - 1], maxSize, steps[n - 1]);
    }
  }

  lemma EmptyPool(maxSize: nat)
    ensures Inv(Pool([], 0, 0, [], []), maxSize)
  {
  }

  lemma {:induction false} BorrowedAtLeast(bs: seq<Borrow>, i: nat, j: nat, c: Connection)
    requires i < j < |bs| && bs[i] == Borrow(c, false) && bs[j] == Borrow(c, false)
    ensures Borrowed(bs, c) >= 2
  {
    if j == |bs| - 1 {
      BorrowedOnce(bs[..|bs| - 1], i, c);
    } else {
      BorrowedAtLeast(bs[..|bs| - 1], i, j, c);
    }
  }

  lemma {:induction false} BorrowedOnce(bs: seq<Borrow>, i: nat, c: Connection)
    requires i < |bs| && bs[i] == Borrow(c, false)
    ensures Borrowed(bs, c) >= 1
  {
    if i < |bs| - 1 { BorrowedOnce(bs[..|bs| - 1], i, c); }
  }

  /** No connection is lent to two borrowers, nor idle while it is lent. */
  lemma NeverLentTwice(maxSize: nat, ps: seq<Pool>, steps: seq<Step>, n: nat, i: nat, j: nat)
    requires Run(maxSize, ps, steps) && n <= |steps|
    requires i < j < |ps[n].borrows| && !ps[n].borrows[i].released && !ps[n].borrows[j].released
    ensures ps[n].borrows[i].connection != ps[n].borrows[j].connection
    ensures Occurs(ps[n].idle, ps[n].borrows[i].connection) == 0
  {
    hide Occurs, Borrowed, LiveCount, Apply;
    EveryRunKeepsInv(maxSize, ps, steps, n);
    var c := ps[n].borrows[i].connection;
    assert Places(ps[n], c) <= 1;
    BorrowedOnce(ps[n].borrows, i, c);
    if ps[n].borrows[j].connection == c { BorrowedAtLeast(ps[n].borrows, i, j, c); }
  }

  /** A thread is turned away only while as many connections as allowed are in use. */
  lemma FullMeansAllInUse(maxSize: nat, ps: seq<Pool>, steps: seq<Step>, n: nat, usable: set<Connection>)
    requires Run(maxSize, ps, steps) && n <= |steps| && EntryOf(ps[n], maxSize, usable) == Full
    ensures LiveCount(ps[n].borrows) + |ps[n].returning| + ps[n].opening == maxSize
  {
    hide LiveCount, Places, Apply;
    EveryRunKeepsInv(maxSize, ps, steps, n);
    TrimKeeps(ps[n], maxSize, usable);
    TrimTouchesIdleOnly(ps[n], usable);
  }

  lemma {:induction false} TrimTouchesIdleOnly(p: Pool, usable: set<Connection>)
    ensures var q := Trim(p, usable); q.borrows == p.borrows && q.returning == p.returning && q.opening == p.opening
    decreases |p.idle|
  {
    if p.idle != [] && p.idle[|p.idle| - 1] !in usable {
      TrimTouchesIdleOnly(p.(idle := p.idle[..|p.idle| - 1], created := p.created - 1), usable);
    }
  }

  /** Once closed, a borrow stays closed, and closing it again gives nothing back. */
  lemma {:induction false} ClosedOnce(maxSize: nat, ps: seq<Pool>, steps: seq<Step>, n: nat, m: nat, i: nat)
    requires Run(maxSize, ps, steps) && n <= m <= |steps| && i < |ps[n].borrows| && ps[n].borrows[i].released
    ensures i < |ps[m].borrows| && ps[m].borrows[i].released && Apply(ps[m], maxSize, Close(i)) == ps[m]
    decreases m
  {
    hide Run;
    if n < m {
      ClosedOnce(maxSize, ps, steps, n, m - 1, i);
      RunStep(maxSize, ps, steps, m - 1);
      if steps[m - 1].Enter? { TrimTouchesIdleOnly(ps[m - 1], steps[m - 1].usable); }
    }
  }

  lemma RunStep(maxSize: nat, ps: seq<Pool>, steps: seq<Step>, i: nat)
    requires Run(maxSize, ps, steps) && i < |steps|
    ensures |ps| == |steps| + 1 && ps[i + 1] == Apply(ps[i], maxSize, steps[i])
  {
  }

  // ---- what each step does ---------------------------------------------------------------------------------

  /** `n` is how many idle connections are left once the unusable ones at the end are dropped. */
  ghost predicate KeptIdle(p: Pool, usable: set<Connection>, n: nat) {
    && n <= |p.idle| && (n > 0 ==> p.idle[n - 1] in usable)
    && forall i :: n <= i < |p.idle| ==> p.idle[i] !in usable
  }

  lemma {:induction false} TrimMeaning(p: Pool, usable: set<Connection>) returns (n: nat)
    ensures KeptIdle(p, usable, n)
    ensures Trim(p, usable) == Pool(p.idle[..n], p.created - (|p.idle| - n), p.opening, p.borrows, p.returning)
    decreases |p.idle|
  {
    n := |p.idle|;
    if p.idle != [] && p.idle[n - 1] !in usable {
      var rest := p.idle[..n - 1];
      n := TrimMeaning(p.(idle := rest, created := p.created - 1), usable);
      assert rest[..n] == p.idle[..n];
      forall i | n <= i < |p.idle| ensures p.idle[i] !in usable { if i < |rest| { assert rest[i] == p.idle[i]; } }
    } else {
      assert p.idle[..n] == p.idle;
    }
  }

  /** An entering thread is lent the last usable idle connection; without one it may open a new one exactly
      while fewer than allowed remain. Unusable connections after the lent one are forgotten. */
  lemma EnterEffect(p: Pool, maxSize: nat, usable: set<Connection>) returns (n: nat)
    ensures KeptIdle(p, usable, n)
    ensures var e, q, created := EntryOf(p, maxSize, usable), Apply(p, maxSize, Enter(usable)), p.created - (|p.idle| - n);
            if n > 0 then
              && e == Lent(p.idle[n - 1])
              && q == Pool(p.idle[..n - 1], created, p.opening, p.borrows + [Borrow(p.idle[n - 1], false)], p.returning)
            else if created < maxSize then e == MayOpen && q == Pool([], created + 1, p.opening + 1, p.borrows, p.returning)
            else e == Full && q == Pool([], created, p.opening, p.borrows, p.returning)
  {
    hide Trim;
    n := TrimMeaning(p, usable);
    if n > 0 {
      assert p.idle[..n][..n - 1] == p.idle[..n - 1];
    } else {
      assert p.idle[..n] == [];
    }
  }

  /** A connection that was opened is lent; a failed open gives its count back. */
  lemma OpenEffect(p: Pool, maxSize: nat, c: Connection)
    requires p.opening > 0
    ensures Apply(p, maxSize, Opened(c)) == Pool(p.idle, p.created, p.opening - 1, p.borrows + [Borrow(c, false)], p.returning)
    ensures Apply(p, maxSize, OpenFailed) == Pool(p.idle, p.created - 1, p.opening - 1, p.borrows, p.returning)
  {
  }

  /** In any reachable pool, a returned connection that is sound becomes the one lent next if it is usable then,
      and one that is not is nowhere any more; every other connection stays where it is. */
  lemma ReleaseEffect(maxSize: nat, ps: seq<Pool>, steps: seq<Step>, m: nat, k: nat, sound: bool, usable: set<Connection>)
    requires Run(maxSize, ps, steps) && m <= |steps| && k < |ps[m].returning|
    ensures var p, c := ps[m], ps[m].returning[k];
            var q := Apply(p, maxSize, Release(k, sound));
            && q.borrows == p.borrows && q.opening == p.opening
            && (sound ==> q.created == p.created && Occurs(q.idle, c) == 1
                          && (c in usable ==> EntryOf(q, maxSize, usable) == Lent(c)))
            && (!sound ==> q.created == p.created - 1 && Places(q, c) == 0)
            && forall d :: d != c ==> Places(q, d) == Places(p, d) && Occurs(q.idle, d) == Occurs(p.idle, d)
  {
    hide Occurs, LiveCount, Borrowed, Trim;
    EveryRunKeepsInv(maxSize, ps, steps, m);
    var p, c := ps[m], ps[m].returning[k];
    var q := Apply(p, maxSize, Release(k, sound));
    ReturnedPlaces(p, maxSize, k, sound, c);
    assert Places(p, c) <= 1;
    forall d | d != c ensures Places(q, d) == Places(p, d) && Occurs(q.idle, d) == Occurs(p.idle, d) {
      ReturnedPlaces(p, maxSize, k, sound, d);
    }
    if sound && c in usable {
      var n := TrimMeaning(q, usable);
      assert q.idle[|q.idle| - 1] == c;
    }
  }

  lemma ReturnedPlaces(p: Pool, maxSize: nat, k: nat, sound: bool, d: Connection)
    requires k < |p.returning|
    ensures var q := Apply(p, maxSize, Release(k, sound));
            var one := if d == p.returning[k] then 1 else 0;
            && Occurs(p.returning, d) == Occurs(q.returning, d) + one
            && Occurs(q.idle, d) == Occurs(p.idle, d) + if sound then one else 0
  {
    hide Occurs;
    var before, after, back := p.returning[..k], p.returning[k + 1..], p.returning[k];
    assert p.returning == (before + [back]) + after;
    OccursAppend(before + [back], after, d);
    OccursSnoc(before, back, d);
    OccursAppend(before, after, d);
    OccursSnoc(p.idle, back, d);
  }

  /** Closing a live borrow puts its connection on the way back, once. */
  lemma CloseEffect(p: Pool, maxSize: nat, i: nat)
    requires i < |p.borrows|
    ensures var b := p.borrows[i];
            Apply(p, maxSize, Close(i))
            == if b.released then p
               else Pool(p.idle, p.created, p.opening, p.borrows[i := b.(released := true)], p.returning + [b.connection])
  {
  }
}
