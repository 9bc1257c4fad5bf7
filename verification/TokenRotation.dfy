/** Rotating a single-use refresh token between workers that share one vault cell and one
    database-wide lock. */
module TokenRotation {
  import opened Names

  type Token = Name
  type Worker = Name

  /** Where a worker is in its refresh. */
  datatype Phase = Outside | Locked | Holding(token: Token) | Exchanged(token: Token)

  /** A token given out, for a login or for the token that was presented. */
  datatype Issue = Login(issued: Token) | Exchange(presented: Token, issued: Token)

  datatype World = World(cell: Option<Token>, owner: Option<Worker>, phases: map<Worker, Phase>, issues: seq<Issue>)

  datatype Step =
    | Connect(given: Token)
    | Lock(worker: Worker)
    | Resolve(worker: Worker)
    | Trade(worker: Worker, given: Token)
    | Store(worker: Worker)
    | Leave(worker: Worker)

  function PhaseOf(w: World, k: Worker): Phase {
    if k in w.phases then w.phases[k] else Outside
  }

  function Move(w: World, k: Worker, p: Phase): World {
    w.(phases := w.phases[k := p])
  }

  /** A step that is not enabled leaves the world as it is. Leaving stands for every exit from the
      lock: the normal one, a refusal by the provider, a failed read, or the worker's death. */
  function Apply(w: World, s: Step): World {
    match s
    case Connect(t) => if w.owner.Some? then w else w.(cell := Some(t), issues := w.issues + [Login(t)])
    case Lock(k) =>
      if w.owner.Some? || PhaseOf(w, k) != Outside then w else Move(w.(owner := Some(k)), k, Locked)
    case Resolve(k) =>
      if PhaseOf(w, k) != Locked || w.cell.None? then w else Move(w, k, Holding(w.cell.value))
    case Trade(k, t) =>
      if !PhaseOf(w, k).Holding? then w
      else Move(w.(issues := w.issues + [Exchange(PhaseOf(w, k).token, t)]), k, Exchanged(t))
    case Store(k) =>
      if !PhaseOf(w, k).Exchanged? then w else Move(w.(cell := Some(PhaseOf(w, k).token)), k, Locked)
    case Leave(k) =>
      if w.owner != Some(k) then w else Move(w.(owner := None), k, Outside)
  }

  // ---- one worker's refresh ---------------------------------------------------------------------------

  /** The vault cell and the lock on it; the phases and the issues are there for the proofs. */
  class SecretVault {
    var cell: Option<Token>
    var owner: Option<Worker>
    ghost var phases: map<Worker, Phase>
    ghost var issues: seq<Issue>

    ghost function State(): World
      reads this
    {
      World(cell, owner, phases, issues)
    }

    constructor ()
      ensures State() == World(None, None, map[], [])
    {
      cell, owner, phases, issues := None, None, map[], [];
    }
  }

  class XeroOAuthClient {
    const worker: Worker
    const secrets: SecretVault
    var cachedUntil: Option<int>

    constructor (worker: Worker, secrets: SecretVault)
      ensures this.worker == worker && this.secrets == secrets && cachedUntil == None
    {
      this.worker, this.secrets, cachedUntil := worker, secrets, None;
    }

    /** The whole refresh, run while no other worker holds the lock. `reply` is the provider's
        answer: a token and its lifetime, or nothing when it refuses. */
    method Refresh(now: int, reply: Option<(Token, int)>) returns (ok: bool)
      requires secrets.owner.None? && PhaseOf(secrets.State(), worker) == Outside
      modifies this`cachedUntil, secrets
      ensures ok <==> old(secrets.cell).Some? && reply.Some?
      ensures ok ==> secrets.State() == RefreshOf(old(secrets.State()), worker, reply.value.0)
      ensures ok ==> secrets.cell == Some(reply.value.0) && secrets.owner.None?
                     && secrets.issues == old(secrets.issues) + [Exchange(old(secrets.cell).value, reply.value.0)]
      ensures !ok ==> secrets.cell == old(secrets.cell) && secrets.issues == old(secrets.issues) && secrets.owner.None?
                      && PhaseOf(secrets.State(), worker) == Outside
      ensures cachedUntil == if ok then Some(now + reply.value.1) else old(cachedUntil)
    {
      ghost var locked := Apply(secrets.State(), Lock(worker));
      secrets.owner := Some(worker);
      secrets.phases := secrets.phases[worker := Locked];
      assert secrets.State() == locked;
      var refreshToken := secrets.cell;
      if refreshToken.None? || reply.None? {
        secrets.owner := None;
        secrets.phases := secrets.phases[worker := Outside];
        return false;
      }
      secrets.phases := secrets.phases[worker := Holding(refreshToken.value)];
      ghost var holding := Apply(locked, Resolve(worker));
      assert secrets.State() == holding;
      var token := reply.value.0;
      secrets.issues := secrets.issues + [Exchange(refreshToken.value, token)];
      secrets.phases := secrets.phases[worker := Exchanged(token)];
      RefreshRotates(old(secrets.State()), worker, token);
      ghost var exchanged := Apply(holding, Trade(worker, token));
      assert secrets.State() == exchanged;
      secrets.cell := Some(token);
      secrets.phases := secrets.phases[worker := Locked];
      assert secrets.State() == Apply(exchanged, Store(worker));
      cachedUntil := Some(now + reply.value.1);
      secrets.owner := None;
      secrets.phases := secrets.phases[worker := Outside];
      return true;
    }

    /** The cached token serves until `skew` before its expiry; after that a refresh is needed. */
    method NeedsRefresh(now: int, skew: nat) returns (r: bool)
      ensures r <==> cachedUntil.None? || cachedUntil.value <= now + skew
    {
      r := !(cachedUntil.Some? && now + skew < cachedUntil.value);
    }
  }

  function RefreshOf(w: World, k: Worker, t: Token): World {
    Apply(Apply(Apply(Apply(Apply(w, Lock(k)), Resolve(k)), Trade(k, t)), Store(k)), Leave(k))
  }

  /** An uninterrupted refresh presents the stored token and stores the one it was given. */
  lemma RefreshRotates(w: World, k: Worker, t: Token)
    requires w.owner.None? && PhaseOf(w, k) == Outside && w.cell.Some?
    ensures var v := RefreshOf(w, k, t);
            v.cell == Some(t) && v.owner.None? && v.issues == w.issues + [Exchange(w.cell.value, t)] && PhaseOf(v, k) == Outside
  {
    var a := Apply(w, Lock(k));
    var b := Apply(a, Resolve(k));
    assert PhaseOf(b, k) == Holding(w.cell.value);
    var c := Apply(b, Trade(k, t));
    assert PhaseOf(c, k) == Exchanged(t);
  }

  // ---- any interleaving ----------------------------------------------------------------------------------

  function After(steps: seq<Step>): World {
    if steps == [] then World(None, None, map[], []) else Apply(After(steps[..|steps| - 1]), steps[|steps| - 1])
  }

  function LastIssued(issues: seq<Issue>): Option<Token> {
    if issues == [] then None else Some(issues[|issues| - 1].issued)
  }

  ghost predicate IssuedIn(issues: seq<Issue>, t: Token) {
    exists i :: 0 <= i < |issues| && issues[i].issued == t
  }

  ghost predicate PresentedIn(issues: seq<Issue>, t: Token) {
    exists i :: 0 <= i < |issues| && issues[i].Exchange? && issues[i].presented == t
  }

  /** Exchange `i` presents the token issued just before it. */
  ghost predicate Follows(issues: seq<Issue>, i: int)
    requires 0 <= i < |issues|
  {
    issues[i].Exchange? ==> i > 0 && issues[i].presented == issues[i - 1].issued
  }

  ghost predicate Chained(issues: seq<Issue>) {
    forall i :: 0 <= i < |issues| ==> Follows(issues, i)
  }

  ghost predicate PresentedOnce(issues: seq<Issue>) {
    forall i, j :: 0 <= i < j < |issues| && issues[i].Exchange? && issues[j].Exchange? ==> issues[i].presented != issues[j].presented
  }

  ghost predicate IssuedOnce(issues: seq<Issue>) {
    forall i, j :: 0 <= i < j < |issues| ==> issues[i].issued != issues[j].issued
  }

  /** Presented tokens were issued earlier. */
  ghost predicate Known(issues: seq<Issue>) {
    forall i :: 0 <= i < |issues| && issues[i].Exchange? ==> IssuedIn(issues[..i], issues[i].presented)
  }

  predicate Trades(w: World, s: Step) { s.Trade? && PhaseOf(w, s.worker).Holding? }

  /** A worker leaves, in whatever way, after its exchange and before its store. */
  predicate DiesUnstored(w: World, s: Step) { s.Leave? && w.owner == Some(s.worker) && PhaseOf(w, s.worker).Exchanged? }

  /** The cell gets the newest token: by a store or by a new login. */
  predicate Renews(w: World, s: Step) {
    (s.Store? && PhaseOf(w, s.worker).Exchanged?) || (s.Connect? && w.owner.None?)
  }

  /** Some worker died unstored and nothing has renewed the cell since. */
  function Spent(steps: seq<Step>): bool {
    if steps == [] then false
    else
      var rest, s := steps[..|steps| - 1], steps[|steps| - 1];
      DiesUnstored(After(rest), s) || (Spent(rest) && !Renews(After(rest), s))
  }

  /** The token the owner's exchange left in the cell, or will present. */
  ghost predicate CellAgrees(w: World, phase: Phase, spent: bool) {
    match phase
    case Exchanged(t) => LastIssued(w.issues) == Some(t) && w.cell.Some? && PresentedIn(w.issues, w.cell.value)
    case Holding(t) => w.cell == Some(t) && CellFresh(w, spent)
    case _ => CellFresh(w, spent)
  }

  /** An unspent cell holds the last issued token, which nobody presented; a spent one holds a presented token. */
  ghost predicate CellFresh(w: World, spent: bool) {
    if spent then w.cell.Some? && PresentedIn(w.issues, w.cell.value) && w.cell != LastIssued(w.issues)
    else w.cell == LastIssued(w.issues) && (w.cell.Some? ==> !PresentedIn(w.issues, w.cell.value))
  }

  ghost predicate Inv(w: World, spent: bool) {
    && (forall k :: PhaseOf(w, k) != Outside <==> w.owner == Some(k))
    && CellAgrees(w, if w.owner.Some? then PhaseOf(w, w.owner.value) else Outside, spent)
    && IssuedOnce(w.issues) && Known(w.issues)
    && (w.cell.Some? ==> IssuedIn(w.issues, w.cell.value))
  }

  /** The provider gives out new tokens. */
  ghost predicate GivesNew(w: World, s: Step) {
    (s.Connect? || s.Trade?) ==> !IssuedIn(w.issues, s.given)
  }

  lemma PresentedSnoc(issues: seq<Issue>, i: Issue, t: Token)
    ensures PresentedIn(issues + [i], t) <==> PresentedIn(issues, t) || (i.Exchange? && i.presented == t)
    ensures IssuedIn(issues + [i], t) <==> IssuedIn(issues, t) || i.issued == t
  {
    var all := issues + [i];
    assert all[|issues|] == i && forall j :: 0 <= j < |issues| ==> all[j] == issues[j];
  }

  /** Recording an issue of a new token. */
  lemma IssueSnoc(issues: seq<Issue>, i: Issue)
    requires IssuedOnce(issues) && Known(issues) && !IssuedIn(issues, i.issued)
    requires i.Exchange? ==> IssuedIn(issues, i.presented)
    ensures IssuedOnce(issues + [i]) && Known(issues + [i]) && LastIssued(issues + [i]) == Some(i.issued)
    ensures IssuedIn(issues + [i], i.issued) && !PresentedIn(issues + [i], i.issued)
  {
    var all := issues + [i];
    PresentedSnoc(issues, i, i.issued);
    forall k | 0 <= k < |all| && all[k].Exchange? ensures IssuedIn(all[..k], all[k].presented) {
      assert all[..k] == if k < |issues| then issues[..k] else issues;
    }
  }

  /** A step inside the lock moves its own worker only, and only within the lock. */
  lemma Moved(w: World, s: Step, k: Worker, j: Worker)
    requires (s.Resolve? && s.worker == k) || (s.Trade? && s.worker == k) || (s.Store? && s.worker == k)
    ensures var v := Apply(w, s);
            && v.owner == w.owner
            && (j != k ==> PhaseOf(v, j) == PhaseOf(w, j))
            && (if s.Resolve? && PhaseOf(w, k) == Locked && w.cell.Some? then v == Move(w, k, Holding(w.cell.value)) && PhaseOf(v, k) == Holding(w.cell.value)
                else if Trades(w, s) then PhaseOf(v, k) == Exchanged(s.given) && v.cell == w.cell
                                          && v.issues == w.issues + [Exchange(PhaseOf(w, k).token, s.given)]
                else if s.Store? && PhaseOf(w, k).Exchanged? then PhaseOf(v, k) == Locked && v.issues == w.issues && v.cell == Some(PhaseOf(w, k).token)
                else v == w)
  {
  }

  /** Only the owner is inside. */
  ghost predicate OneInside(w: World) {
    forall k :: PhaseOf(w, k) != Outside <==> w.owner == Some(k)
  }

  lemma StaysOneInside(w: World, s: Step)
    requires OneInside(w)
    ensures OneInside(Apply(w, s))
  {
    var v := Apply(w, s);
    forall k ensures PhaseOf(v, k) != Outside <==> v.owner == Some(k) {
      assert PhaseOf(w, k) != Outside <==> w.owner == Some(k);
      match s {
        case Connect(_) =>
        case _ => assert PhaseOf(w, s.worker) != Outside <==> w.owner == Some(s.worker);
      }
    }
  }

  lemma ConnectKeeps(w: World, t: Token, spent: bool)
    requires Inv(w, spent) && !IssuedIn(w.issues, t) && w.owner.None?
    ensures Inv(Apply(w, Connect(t)), false)
  {
    hide IssuedOnce, Known, IssuedIn, PresentedIn, LastIssued;
    StaysOneInside(w, Connect(t));
    IssueSnoc(w.issues, Login(t));
  }

  /** Resolving, exchanging and storing, by the worker inside the lock. */
  lemma InsideKeeps(w: World, s: Step, spent: bool)
    requires Inv(w, spent) && GivesNew(w, s) && (s.Resolve? || s.Trade? || s.Store?)
    ensures Inv(Apply(w, s), spent && !Renews(w, s))
  {
    hide IssuedOnce, Known, IssuedIn, PresentedIn, LastIssued, PhaseOf, Apply, Move;
    var k := s.worker;
    StaysOneInside(w, s);
    Moved(w, s, k, k);
    assert PhaseOf(w, k) != Outside <==> w.owner == Some(k);
    if s.Resolve? {
      if PhaseOf(w, k) == Locked && w.cell.Some? { MoveKeeps(w, k, Holding(w.cell.value)); }
    } else if s.Trade? {
      if Trades(w, s) {
        var i := Exchange(PhaseOf(w, k).token, s.given);
        IssueSnoc(w.issues, i);
        PresentedSnoc(w.issues, i, w.cell.value);
      }
    } else if PhaseOf(w, k).Exchanged? {
      StoredIsFresh(w, PhaseOf(w, k).token);
    }
  }

  lemma MoveKeeps(w: World, k: Worker, p: Phase)
    ensures Move(w, k, p).cell == w.cell && Move(w, k, p).issues == w.issues
  {
  }

  /** The token just issued was issued in the last step and never presented. */
  lemma StoredIsFresh(w: World, t: Token)
    requires IssuedOnce(w.issues) && Known(w.issues) && LastIssued(w.issues) == Some(t)
    ensures IssuedIn(w.issues, t) && !PresentedIn(w.issues, t)
  {
    var n := |w.issues| - 1;
    assert w.issues[n].issued == t;
    forall i | 0 <= i < |w.issues| && w.issues[i].Exchange? ensures w.issues[i].presented != t {
      var j :| 0 <= j < i && w.issues[..i][j].issued == w.issues[i].presented;
      assert w.issues[j].issued != w.issues[n].issued;
    }
  }

  lemma EdgeKeeps(w: World, s: Step, spent: bool)
    requires Inv(w, spent) && (s.Lock? || s.Leave?)
    ensures Inv(Apply(w, s), spent || DiesUnstored(w, s))
  {
    hide IssuedOnce, Known, IssuedIn;
    StaysOneInside(w, s);
    assert PhaseOf(w, s.worker) != Outside <==> w.owner == Some(s.worker);
    if DiesUnstored(w, s) { LeftBehind(w, PhaseOf(w, s.worker).token); }
  }

  /** A presented token is not the one just issued. */
  lemma LeftBehind(w: World, t: Token)
    requires IssuedOnce(w.issues) && Known(w.issues) && LastIssued(w.issues) == Some(t)
    requires w.cell.Some? && PresentedIn(w.issues, w.cell.value)
    ensures w.cell.value != t
  {
    StoredIsFresh(w, t);
  }

  lemma StepKeepsInv(w: World, s: Step, spent: bool)
    requires Inv(w, spent) && GivesNew(w, s)
    ensures Inv(Apply(w, s), DiesUnstored(w, s) || (spent && !Renews(w, s)))
  {
    hide Inv, Apply, PhaseOf;
    match s {
      case Connect(t) => if w.owner.None? { ConnectKeeps(w, t, spent); } else { BlockedConnect(w, t); }
      case Lock(_) => EdgeKeeps(w, s, spent);
      case Leave(_) => EdgeKeeps(w, s, spent);
      case _ => InsideKeeps(w, s, spent);
    }
  }

  lemma BlockedConnect(w: World, t: Token)
    requires w.owner.Some?
    ensures Apply(w, Connect(t)) == w
  {
  }

  /** All tokens given out over the run are new. */
  ghost predicate TokensNew(steps: seq<Step>) {
    forall n :: 0 <= n < |steps| ==> GivesNew(After(steps[..n]), steps[n])
  }

  lemma TokensNewPrefix(steps: seq<Step>)
    requires steps != [] && TokensNew(steps)
    ensures TokensNew(steps[..|steps| - 1]) && GivesNew(After(steps[..|steps| - 1]), steps[|steps| - 1])
  {
    hide GivesNew, After;
    var rest := steps[..|steps| - 1];
    forall n | 0 <= n < |rest| ensures GivesNew(After(rest[..n]), rest[n]) {
      assert rest[..n] == steps[..n] && rest[n] == steps[n];
    }
  }

  lemma {:induction false} EveryRunKeepsInv(steps: seq<Step>)
    requires TokensNew(steps)
    ensures Inv(After(steps), Spent(steps))
  {
    hide Apply, Inv, GivesNew, DiesUnstored, Renews;
    if steps == [] {
      NothingIssued();
    } else {
      TokensNewPrefix(steps);
      EveryRunKeepsInv(steps[..|steps| - 1]);
      StepKeepsInv(After(steps[..|steps| - 1]), steps[|steps| - 1], Spent(steps[..|steps| - 1]));
    }
  }

  lemma NothingIssued()
    ensures Inv(World(None, None, map[], []), false)
  {
  }

  /** An exchange presents a token that was presented before exactly when the cell is spent, and
      the token issued last exactly when it is not. */
  lemma TradePresents(w: World, s: Step, spent: bool)
    requires Inv(w, spent) && Trades(w, s)
    ensures PresentedIn(w.issues, PhaseOf(w, s.worker).token) <==> spent
    ensures Some(PhaseOf(w, s.worker).token) == LastIssued(w.issues) <==> !spent
  {
    hide IssuedOnce, Known, IssuedIn, PresentedIn, LastIssued;
    assert PhaseOf(w, s.worker) != Outside <==> w.owner == Some(s.worker);
  }

  lemma OnlyTradesExchange(w: World, s: Step)
    ensures var v := Apply(w, s);
            if Trades(w, s) then v.issues == w.issues + [Exchange(PhaseOf(w, s.worker).token, s.given)]
            else v.issues == w.issues || exists t :: v.issues == w.issues + [Login(t)]
  {
  }

  lemma PresentedOnceSnoc(issues: seq<Issue>, i: Issue)
    ensures PresentedOnce(issues + [i]) <==> PresentedOnce(issues) && (i.Exchange? ==> !PresentedIn(issues, i.presented))
    ensures Chained(issues + [i]) <==> Chained(issues) && (i.Exchange? ==> LastIssued(issues) == Some(i.presented))
  {
    var all := issues + [i];
    assert forall j :: 0 <= j < |issues| ==> all[j] == issues[j];
    if PresentedOnce(all) {
      forall j | 0 <= j < |issues| && issues[j].Exchange? && i.Exchange? ensures issues[j].presented != i.presented {
        assert all[j].presented != all[|issues|].presented;
      }
      forall j, k | 0 <= j < k < |issues| && issues[j].Exchange? && issues[k].Exchange? ensures issues[j].presented != issues[k].presented {
        assert all[j].presented != all[k].presented;
      }
    }
    forall j | 0 <= j < |issues| ensures Follows(all, j) <==> Follows(issues, j) {}
    if Chained(all) {
      forall j | 0 <= j < |issues| ensures Follows(issues, j) { assert Follows(all, j); }
      assert Follows(all, |issues|);
    }
    if Chained(issues) && (i.Exchange? ==> LastIssued(issues) == Some(i.presented)) {
      forall j | 0 <= j < |all| ensures Follows(all, j) {}
    }
  }

  /** Some worker exchanges while the cell is spent: after a death between an exchange and its
      store, and before the next store or login. */
  ghost predicate TradesSpent(steps: seq<Step>) {
    exists n :: 0 <= n < |steps| && TradesSpentAt(steps, n)
  }

  predicate TradesSpentAt(steps: seq<Step>, n: nat)
    requires n < |steps|
  {
    Trades(After(steps[..n]), steps[n]) && Spent(steps[..n])
  }

  lemma TradesSpentSnoc(steps: seq<Step>)
    requires steps != []
    ensures TradesSpent(steps) <==> TradesSpent(steps[..|steps| - 1]) || TradesSpentAt(steps, |steps| - 1)
  {
    hide Spent, After, Trades;
    var rest := steps[..|steps| - 1];
    forall n | 0 <= n < |rest| ensures TradesSpentAt(steps, n) <==> TradesSpentAt(rest, n) { assert rest[..n] == steps[..n]; }
  }

  /** With new tokens and deaths anywhere: no token is presented twice, and every exchange
      presents the token issued just before it, exactly when no worker exchanges while the
      cell is spent. */
  lemma {:induction false} TokensAreReusedExactlyWhen(steps: seq<Step>)
    requires TokensNew(steps)
    ensures PresentedOnce(After(steps).issues) <==> !TradesSpent(steps)
    ensures Chained(After(steps).issues) <==> !TradesSpent(steps)
  {
    hide Apply, Inv, GivesNew, Spent, TradesSpent, PresentedOnce, Chained, PresentedIn, LastIssued;
    if steps == [] {
      NothingSpent();
    } else {
      var rest, s := steps[..|steps| - 1], steps[|steps| - 1];
      TokensNewPrefix(steps);
      TokensAreReusedExactlyWhen(rest);
      TradesSpentSnoc(steps);
      EveryRunKeepsInv(rest);
      var w := After(rest);
      OnlyTradesExchange(w, s);
      if Trades(w, s) {
        TradePresents(w, s, Spent(rest));
        PresentedOnceSnoc(w.issues, Exchange(PhaseOf(w, s.worker).token, s.given));
      } else if After(steps).issues != w.issues {
        var t :| After(steps).issues == w.issues + [Login(t)];
        PresentedOnceSnoc(w.issues, Login(t));
      }
    }
  }

  lemma NothingSpent()
    ensures PresentedOnce(After([]).issues) && Chained(After([]).issues) && !TradesSpent([])
  {
  }

  /** No worker dies between its exchange and its store. */
  ghost predicate AllStored(steps: seq<Step>) {
    forall n :: 0 <= n < |steps| ==> !DiesUnstored(After(steps[..n]), steps[n])
  }

  lemma {:induction false} StoredIsNotSpent(steps: seq<Step>, n: nat)
    requires AllStored(steps) && n <= |steps|
    ensures !Spent(steps[..n])
  {
    hide After, DiesUnstored, Renews;
    if n > 0 {
      StoredIsNotSpent(steps, n - 1);
      assert steps[..n][..n - 1] == steps[..n - 1] && steps[..n][n - 1] == steps[n - 1];
    }
  }

  /** When every worker that exchanges also stores, each exchange presents the token issued just
      before it, and no token is presented twice. */
  lemma TokensAreUsedOnce(steps: seq<Step>)
    requires TokensNew(steps) && AllStored(steps)
    ensures PresentedOnce(After(steps).issues) && Chained(After(steps).issues)
  {
    hide After, TokensNew, AllStored, PresentedOnce, Chained, Spent;
    TokensAreReusedExactlyWhen(steps);
    forall n | 0 <= n < |steps| ensures !TradesSpentAt(steps, n) { StoredIsNotSpent(steps, n); }
  }

  // ---- a death before the store -------------------------------------------------------------------------------

  function DyingScript(first: Worker, second: Worker, t0: Token, t1: Token, t2: Token): seq<Step> {
    [Connect(t0), Lock(first), Resolve(first), Trade(first, t1), Leave(first), Lock(second), Resolve(second), Trade(second, t2)]
  }

  /** A worker that dies between its exchange and its store leaves the used token behind, and
      the next worker presents it again. */
  lemma DyingBeforeStoreReusesToken(first: Worker, second: Worker, t0: Token, t1: Token, t2: Token)
    requires first != second && t0 != t1 && t0 != t2 && t1 != t2
    ensures var steps := DyingScript(first, second, t0, t1, t2);
            TokensNew(steps) && TradesSpent(steps) && !PresentedOnce(After(steps).issues)
  {
    hide After, Spent, TokensNew, TradesSpent, PresentedOnce;
    var steps := DyingScript(first, second, t0, t1, t2);
    DyingWorlds(first, second, t0, t1, t2);
    DyingTokensNew(first, second, t0, t1, t2);
    DyingIsSpent(first, second, t0, t1, t2);
    assert TradesSpentAt(steps, 7);
    SpentAt(steps, 7);
    TokensAreReusedExactlyWhen(steps);
  }

  lemma SpentAt(steps: seq<Step>, n: nat)
    requires n < |steps| && TradesSpentAt(steps, n)
    ensures TradesSpent(steps)
  {
    hide TradesSpentAt;
  }

  lemma AfterTo(steps: seq<Step>, n: nat)
    requires n < |steps|
    ensures After(steps[..n + 1]) == Apply(After(steps[..n]), steps[n])
    ensures Spent(steps[..n + 1]) == (DiesUnstored(After(steps[..n]), steps[n]) || (Spent(steps[..n]) && !Renews(After(steps[..n]), steps[n])))
  {
    hide Apply, DiesUnstored, Renews;
    assert steps[..n + 1][..n] == steps[..n];
  }

  lemma AfterNothing(steps: seq<Step>)
    ensures After(steps[..0]) == World(None, None, map[], []) && !Spent(steps[..0])
  {
  }

  /** The world after each step of the script. */
  function DyingWorld(first: Worker, second: Worker, t0: Token, t1: Token, n: nat): World
    requires n <= 7
  {
    var issues := [Login(t0)] + if n >= 4 then [Exchange(t0, t1)] else [];
    match n
    case 0 => World(None, None, map[], [])
    case 1 => World(Some(t0), None, map[], issues)
    case 2 => World(Some(t0), Some(first), map[first := Locked], issues)
    case 3 => World(Some(t0), Some(first), map[first := Holding(t0)], issues)
    case 4 => World(Some(t0), Some(first), map[first := Exchanged(t1)], issues)
    case 5 => World(Some(t0), None, map[first := Outside], issues)
    case 6 => World(Some(t0), Some(second), map[first := Outside, second := Locked], issues)
    case _ => World(Some(t0), Some(second), map[first := Outside, second := Holding(t0)], issues)
  }

  lemma DyingStep(first: Worker, second: Worker, t0: Token, t1: Token, t2: Token, n: nat)
    requires first != second && n < 7
    ensures Apply(DyingWorld(first, second, t0, t1, n), DyingScript(first, second, t0, t1, t2)[n]) == DyingWorld(first, second, t0, t1, n + 1)
  {
  }

  lemma DyingWorlds(first: Worker, second: Worker, t0: Token, t1: Token, t2: Token)
    requires first != second
    ensures forall n :: 0 <= n <= 7 ==> After(DyingScript(first, second, t0, t1, t2)[..n]) == DyingWorld(first, second, t0, t1, n)
  {
    hide After, Apply, DyingWorld;
    forall n | 0 <= n <= 7 ensures After(DyingScript(first, second, t0, t1, t2)[..n]) == DyingWorld(first, second, t0, t1, n) {
      DyingTo(first, second, t0, t1, t2, n);
    }
  }

  lemma {:induction false} DyingTo(first: Worker, second: Worker, t0: Token, t1: Token, t2: Token, n: nat)
    requires first != second && n <= 7
    ensures |DyingScript(first, second, t0, t1, t2)| == 8
    ensures After(DyingScript(first, second, t0, t1, t2)[..n]) == DyingWorld(first, second, t0, t1, n)
  {
    hide After, Apply;
    var steps := DyingScript(first, second, t0, t1, t2);
    if n == 0 {
      AfterNothing(steps);
    } else {
      DyingTo(first, second, t0, t1, t2, n - 1);
      AfterTo(steps, n - 1);
      DyingStep(first, second, t0, t1, t2, n - 1);
    }
  }

  lemma DyingTokensNew(first: Worker, second: Worker, t0: Token, t1: Token, t2: Token)
    requires first != second && t0 != t1 && t0 != t2 && t1 != t2
    ensures TokensNew(DyingScript(first, second, t0, t1, t2))
  {
    hide After;
    var steps := DyingScript(first, second, t0, t1, t2);
    DyingWorlds(first, second, t0, t1, t2);
    forall n | 0 <= n < |steps| ensures GivesNew(After(steps[..n]), steps[n]) {
      assert After(steps[..n]) == DyingWorld(first, second, t0, t1, n);
    }
  }

  lemma DyingIsSpent(first: Worker, second: Worker, t0: Token, t1: Token, t2: Token)
    requires first != second
    ensures var steps := DyingScript(first, second, t0, t1, t2);
            Spent(steps[..7]) && Trades(After(steps[..7]), steps[7])
  {
    hide After, Spent;
    var steps := DyingScript(first, second, t0, t1, t2);
    DyingWorlds(first, second, t0, t1, t2);
    assert After(steps[..4]) == DyingWorld(first, second, t0, t1, 4);
    assert After(steps[..5]) == DyingWorld(first, second, t0, t1, 5);
    assert After(steps[..6]) == DyingWorld(first, second, t0, t1, 6);
    assert After(steps[..7]) == DyingWorld(first, second, t0, t1, 7);
    AfterTo(steps, 4);
    AfterTo(steps, 5);
    AfterTo(steps, 6);
  }
}
