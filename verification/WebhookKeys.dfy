/** Fetching webhook verification keys: cached keys, remembered refusals, one fetch per key at
    a time, and a bound on the fetches of any minute. */
module WebhookKeys {
  import opened Names

  datatype CachedKey = CachedKey(until: int, key: Name)

  /** The verifier's fields; `history` records the time of every fetch ever started. */
  datatype Verifier = Verifier(cache: map<Name, CachedKey>, refused: map<Name, int>, fetches: seq<int>, inflight: set<Name>,
                               history: seq<int>)

  datatype Lookup = Hit(key: Name) | Refused | Limited | WaitForOther | Fetch

  datatype Step =
    | Look(id: Name, now: int)
    | StoreKey(id: Name, until: int, key: Name)
    | RememberRefusal(id: Name, until: int)
    | Complete(id: Name)

  // ---- the steps ------------------------------------------------------------------------------------

  function Recent(fetches: seq<int>, now: int): seq<int> {
    if fetches != [] && fetches[0] <= now - 60 then Recent(fetches[1..], now) else fetches
  }

  function LookupOf(v: Verifier, limit: nat, id: Name, now: int): Lookup {
    if id in v.cache && v.cache[id].until > now then Hit(v.cache[id].key)
    else if id in v.refused && v.refused[id] > now then Refused
    else if id in v.inflight then WaitForOther
    else if |Recent(v.fetches, now)| >= limit then Limited
    else Fetch
  }

  function Apply(v: Verifier, limit: nat, s: Step): Verifier {
    match s
    case Look(id, now) =>
      if id in v.cache && v.cache[id].until > now then v
      else
        var u := v.(cache := v.cache - {id});
        if id in v.refused && v.refused[id] > now then u
        else
          var w := u.(refused := v.refused - {id}, fetches := Recent(v.fetches, now));
          if LookupOf(v, limit, id, now).Fetch?
          then w.(fetches := w.fetches + [now], inflight := w.inflight + {id}, history := w.history + [now])
          else w
    case StoreKey(id, until, key) => v.(cache := v.cache[id := CachedKey(until, key)])
    case RememberRefusal(id, until) => v.(refused := v.refused[id := until])
    case Complete(id) => v.(inflight := v.inflight - {id})
  }

  // ---- the verifier -------------------------------------------------------------------------------------

  class PlaidWebhookVerifier {
    const limit: nat
    const ttl: nat
    var cache: map<Name, CachedKey>
    var refused: map<Name, int>
    var fetches: seq<int>
    var inflight: set<Name>
    ghost var history: seq<int>

    ghost function State(): Verifier
      reads this
    {
      Verifier(cache, refused, fetches, inflight, history)
    }

    constructor (limit: nat, ttl: nat)
      requires limit >= 1 && ttl >= 1
      ensures this.limit == limit && this.ttl == ttl && State() == Verifier(map[], map[], [], {}, [])
    {
      this.limit, this.ttl := limit, ttl;
      cache, refused, fetches, inflight, history := map[], map[], [], {}, [];
    }

    /** What a caller decides under the lock at time `now`. */
    method LookUp(id: Name, now: int) returns (r: Lookup)
      modifies this
      ensures r == LookupOf(old(State()), limit, id, now)
      ensures State() == Apply(old(State()), limit, Look(id, now))
    {
      if id in cache && cache[id].until > now {
        return Hit(cache[id].key);
      }
      cache := cache - {id};
      if id in refused && refused[id] > now {
        return Refused;
      }
      refused := refused - {id};
      while fetches != [] && fetches[0] <= now - 60
        invariant Recent(fetches, now) == Recent(old(fetches), now)
        decreases |fetches|
        modifies this`fetches
      {
        fetches := fetches[1..];
      }
      if id in inflight {
        return WaitForOther;
      }
      if |fetches| >= limit {
        return Limited;
      }
      inflight := inflight + {id};
      fetches := fetches + [now];
      history := history + [now];
      return Fetch;
    }

    /** The provider answered with a key. */
    method KeepKey(id: Name, now: int, key: Name)
      modifies this`cache
      ensures State() == Apply(old(State()), limit, StoreKey(id, now + ttl, key))
    {
      cache := cache[id := CachedKey(now + ttl, key)];
    }

    /** The provider refused the key id: remember it for at most a minute. */
    method KeepRefusal(id: Name, now: int)
      modifies this`refused
      ensures State() == Apply(old(State()), limit, RememberRefusal(id, now + if ttl < 60 then ttl else 60))
    {
      refused := refused[id := now + if ttl < 60 then ttl else 60];
    }

    method Finish(id: Name)
      modifies this`inflight
      ensures State() == Apply(old(State()), limit, Complete(id))
    {
      inflight := inflight - {id};
    }
  }

  // ---- any interleaving ------------------------------------------------------------------------------------

  /** The fetches that started in the minute that ends at `t`. */
  function InMinute(history: seq<int>, t: int): nat {
    if history == [] then 0
    else
      var last := history[|history| - 1];
      InMinute(history[..|history| - 1], t) + if t - 60 < last <= t then 1 else 0
  }

  ghost predicate Ordered(s: seq<int>, latest: int) {
    (forall i, j :: 0 <= i <= j < |s| ==> s[i] <= s[j]) && forall i :: 0 <= i < |s| ==> s[i] <= latest
  }

  /** The kept fetch times are the end of the history, and every earlier one is a minute old. */
  ghost predicate Window(fetches: seq<int>, history: seq<int>, limit: nat, latest: int) {
    && Ordered(history, latest)
    && |fetches| <= |history| && fetches == history[|history| - |fetches|..]
    && (forall i :: 0 <= i < |history| - |fetches| ==> history[i] <= latest - 60)
    && |fetches| <= limit
    && forall t :: InMinute(history, t) <= limit
  }

  ghost predicate Inv(v: Verifier, limit: nat, latest: int) {
    Window(v.fetches, v.history, limit, latest)
  }

  function Time(s: Step, latest: int): int { if s.Look? then s.now else latest }

  lemma {:induction false} RecentIsSuffix(fetches: seq<int>, now: int) returns (k: nat)
    ensures k <= |fetches| && Recent(fetches, now) == fetches[k..]
    ensures forall i :: 0 <= i < k ==> fetches[i] <= now - 60
    ensures k < |fetches| ==> fetches[k] > now - 60
  {
    if fetches != [] && fetches[0] <= now - 60 {
      var j := RecentIsSuffix(fetches[1..], now);
      k := j + 1;
      assert forall i :: 0 < i < k ==> fetches[i] == fetches[1..][i - 1];
    } else {
      k := 0;
    }
  }

  /** No more than the entries from `n` on can fall in a minute that the others precede. */
  lemma {:induction false} OldEntriesDoNotCount(history: seq<int>, n: nat, t: int)
    requires n <= |history| && forall i :: 0 <= i < n ==> history[i] <= t - 60
    ensures InMinute(history, t) <= |history| - n
    decreases |history|
  {
    if |history| > n {
      OldEntriesDoNotCount(history[..|history| - 1], n, t);
    } else if history != [] {
      OldEntriesDoNotCount(history[..|history| - 1], n - 1, t);
    }
  }

  lemma {:induction false} LaterMinuteCountsLess(history: seq<int>, t: int, now: int)
    requires now <= t && forall i :: 0 <= i < |history| ==> history[i] <= now
    ensures InMinute(history, t) <= InMinute(history, now)
  {
    if history != [] { LaterMinuteCountsLess(history[..|history| - 1], t, now); }
  }

  lemma RecentKeeps(fetches: seq<int>, history: seq<int>, limit: nat, latest: int, now: int)
    requires Window(fetches, history, limit, latest) && latest <= now
    ensures Window(Recent(fetches, now), history, limit, now)
  {
    hide InMinute, Recent;
    var k := RecentIsSuffix(fetches, now);
    var gone := |history| - |fetches|;
    forall i | 0 <= i < gone + k ensures history[i] <= now - 60 {
      if i >= gone { assert history[i] == fetches[i - gone]; }
    }
    assert fetches[k..] == history[gone + k..];
  }

  lemma InMinuteSnoc(history: seq<int>, now: int, t: int)
    ensures InMinute(history + [now], t) == InMinute(history, t) + if t - 60 < now <= t then 1 else 0
  {
    assert (history + [now])[..|history|] == history;
  }

  lemma AppendKeeps(fetches: seq<int>, history: seq<int>, limit: nat, now: int)
    requires Window(fetches, history, limit, now) && |fetches| < limit
    ensures Window(fetches + [now], history + [now], limit, now)
  {
    hide InMinute;
    var gone := |history| - |fetches|;
    assert (history + [now])[gone..] == fetches + [now];
    OldEntriesDoNotCount(history, gone, now);
    forall t ensures InMinute(history + [now], t) <= limit {
      InMinuteSnoc(history, now, t);
      if t - 60 < now <= t { LaterMinuteCountsLess(history, t, now); }
    }
  }

  lemma LookKeeps(v: Verifier, limit: nat, latest: int, id: Name, now: int)
    requires Inv(v, limit, latest) && latest <= now
    ensures Inv(Apply(v, limit, Look(id, now)), limit, now)
  {
    hide Recent, Window;
    Waits(v.fetches, v.history, limit, latest, now);
    RecentKeeps(v.fetches, v.history, limit, latest, now);
    if LookupOf(v, limit, id, now).Fetch? { AppendKeeps(Recent(v.fetches, now), v.history, limit, now); }
  }

  lemma Waits(fetches: seq<int>, history: seq<int>, limit: nat, latest: int, now: int)
    requires Window(fetches, history, limit, latest) && latest <= now
    ensures Window(fetches, history, limit, now)
  {
    hide InMinute;
  }

  lemma StepKeepsInv(v: Verifier, limit: nat, latest: int, s: Step)
    requires Inv(v, limit, latest) && latest <= Time(s, latest)
    ensures Inv(Apply(v, limit, s), limit, Time(s, latest))
  {
    hide Window;
    if s.Look? { LookKeeps(v, limit, latest, s.id, s.now); }
  }

  function After(limit: nat, steps: seq<Step>): Verifier {
    if steps == [] then Verifier(map[], map[], [], {}, [])
    else Apply(After(limit, steps[..|steps| - 1]), limit, steps[|steps| - 1])
  }

  function Latest(start: int, steps: seq<Step>): int {
    if steps == [] then start else Time(steps[|steps| - 1], Latest(start, steps[..|steps| - 1]))
  }

  /** The clock readings do not go back from one lookup to the next. */
  ghost predicate Timely(start: int, steps: seq<Step>) {
    forall n :: 0 < n <= |steps| ==> Latest(start, steps[..n - 1]) <= Latest(start, steps[..n])
  }

  lemma {:induction false} ReachableInv(limit: nat, start: int, steps: seq<Step>)
    requires Timely(start, steps)
    ensures Inv(After(limit, steps), limit, Latest(start, steps))
  {
    hide Inv, Apply;
    if steps == [] {
      NothingFetched(limit, start);
    } else {
      var rest := steps[..|steps| - 1];
      assert steps[..|steps|] == steps;
      forall n | 0 < n <= |rest| ensures Latest(start, rest[..n - 1]) <= Latest(start, rest[..n]) {
        assert rest[..n - 1] == steps[..n - 1] && rest[..n] == steps[..n];
      }
      ReachableInv(limit, start, rest);
      assert Latest(start, steps[..|steps| - 1]) <= Latest(start, steps[..|steps|]);
      StepKeepsInv(After(limit, rest), limit, Latest(start, rest), steps[|steps| - 1]);
    }
  }

  lemma NothingFetched(limit: nat, start: int)
    ensures Inv(Verifier(map[], map[], [], {}, []), limit, start)
  {
  }

  /** However the threads interleave, no minute of the whole history holds more fetches than allowed. */
  lemma FetchesAreLimited(limit: nat, start: int, steps: seq<Step>, t: int)
    requires Timely(start, steps)
    ensures InMinute(After(limit, steps).history, t) <= limit
  {
    hide After, InMinute;
    ReachableInv(limit, start, steps);
  }

  // ---- one fetch per key -----------------------------------------------------------------------------------

  /** Fetches of `id` that were started and not yet completed. */
  function Open(limit: nat, steps: seq<Step>, id: Name): int {
    if steps == [] then 0
    else
      var rest, s := steps[..|steps| - 1], steps[|steps| - 1];
      Open(limit, rest, id)
      + (if s.Look? && s.id == id && LookupOf(After(limit, rest), limit, id, s.now).Fetch? then 1
         else if s.Complete? && s.id == id then -1 else 0)
  }

  /** Only a thread that fetched completes the fetch. */
  ghost predicate CompletesOwn(limit: nat, steps: seq<Step>) {
    forall n :: 0 <= n < |steps| && steps[n].Complete? ==> Open(limit, steps[..n], steps[n].id) > 0
  }

  lemma {:induction false} OneFetchPerKey(limit: nat, steps: seq<Step>, id: Name)
    requires CompletesOwn(limit, steps)
    ensures Open(limit, steps, id) == if id in After(limit, steps).inflight then 1 else 0
  {
    if steps != [] {
      hide Recent;
      var rest := steps[..|steps| - 1];
      forall n | 0 <= n < |rest| && rest[n].Complete? ensures Open(limit, rest[..n], rest[n].id) > 0 {
        assert rest[n] == steps[n] && rest[..n] == steps[..n];
      }
      OneFetchPerKey(limit, rest, id);
      assert steps[|rest|].Complete? && steps[|rest|].id == id ==> Open(limit, steps[..|rest|], id) > 0;
    }
  }

  // ---- what the caches are good for -----------------------------------------------------------------------------

  function ApplyAll(v: Verifier, limit: nat, steps: seq<Step>): Verifier {
    if steps == [] then v else Apply(ApplyAll(v, limit, steps[..|steps| - 1]), limit, steps[|steps| - 1])
  }

  /** Nothing before `until` looks the key up too late or replaces it. */
  ghost predicate Undisturbed(s: Step, id: Name, until: int) {
    !(s.StoreKey? && s.id == id) && (s.Look? && s.id == id ==> s.now < until)
  }

  /** A cached key is served, and never fetched again, until it expires. */
  lemma {:induction false} CachedKeyServes(v: Verifier, limit: nat, steps: seq<Step>, id: Name, now: int)
    requires id in v.cache && now < v.cache[id].until
    requires forall s :: s in steps ==> Undisturbed(s, id, v.cache[id].until)
    ensures var w := ApplyAll(v, limit, steps);
            id in w.cache && w.cache[id] == v.cache[id] && LookupOf(w, limit, id, now) == Hit(v.cache[id].key)
  {
    if steps != [] {
      hide Recent;
      var rest, last := steps[..|steps| - 1], steps[|steps| - 1];
      assert last in steps;
      CachedKeyServes(v, limit, rest, id, now);
    }
  }

  /** A refused key id is not fetched until its refusal lapses. */
  lemma {:induction false} RefusalHolds(v: Verifier, limit: nat, steps: seq<Step>, id: Name, now: int)
    requires id !in v.cache && id in v.refused && now < v.refused[id]
    requires forall s :: s in steps ==> Undisturbed(s, id, v.refused[id]) && !(s.RememberRefusal? && s.id == id)
    ensures var w := ApplyAll(v, limit, steps);
            id !in w.cache && id in w.refused && w.refused[id] == v.refused[id] && LookupOf(w, limit, id, now) == Refused
  {
    if steps != [] {
      hide Recent;
      var rest, last := steps[..|steps| - 1], steps[|steps| - 1];
      assert last in steps;
      RefusalHolds(v, limit, rest, id, now);
    }
  }

  // ---- what a lookup answers ------------------------------------------------------------------------------------

  lemma {:induction false} YoungEntriesCount(history: seq<int>, n: nat, t: int)
    requires n <= |history|
    requires forall i :: 0 <= i < n ==> history[i] <= t - 60
    requires forall i :: n <= i < |history| ==> t - 60 < history[i] <= t
    ensures InMinute(history, t) == |history| - n
    decreases |history|
  {
    if |history| > n {
      YoungEntriesCount(history[..|history| - 1], n, t);
    } else if history != [] {
      YoungEntriesCount(history[..|history| - 1], n - 1, t);
    }
  }

  /** The kept times that are not too old are as many as the fetches of the minute. */
  lemma RecentCounts(fetches: seq<int>, history: seq<int>, limit: nat, latest: int, now: int)
    requires Window(fetches, history, limit, latest) && latest <= now
    ensures |Recent(fetches, now)| == InMinute(history, now)
  {
    hide InMinute, Recent;
    var k := RecentIsSuffix(fetches, now);
    var gone := |history| - |fetches|;
    forall i | 0 <= i < gone + k ensures history[i] <= now - 60 {
      if i >= gone { assert history[i] == fetches[i - gone]; }
    }
    forall i | gone + k <= i < |history| ensures now - 60 < history[i] <= now {
      assert history[gone + k] == fetches[k];
    }
    YoungEntriesCount(history, gone + k, now);
  }

  predicate LiveKey(v: Verifier, id: Name, now: int) { id in v.cache && now < v.cache[id].until }

  predicate LiveRefusal(v: Verifier, id: Name, now: int) { id in v.refused && now < v.refused[id] }

  /** After any interleaving: a live key is served, else a live refusal is repeated, else a running fetch is
      waited for, and a new fetch is allowed exactly when the last minute of the whole history held fewer
      than the limit. */
  lemma AnsweredExactlyWhen(limit: nat, start: int, steps: seq<Step>, id: Name, now: int)
    requires Timely(start, steps) && Latest(start, steps) <= now
    ensures var v := After(limit, steps);
            var answer, open := LookupOf(v, limit, id, now), !LiveKey(v, id, now) && !LiveRefusal(v, id, now);
            && (answer.Hit? <==> LiveKey(v, id, now)) && (answer.Hit? ==> answer.key == v.cache[id].key)
            && (answer.Refused? <==> !LiveKey(v, id, now) && LiveRefusal(v, id, now))
            && (answer.WaitForOther? <==> open && id in v.inflight)
            && (answer.Fetch? <==> open && id !in v.inflight && InMinute(v.history, now) < limit)
            && (answer.Limited? <==> open && id !in v.inflight && InMinute(v.history, now) >= limit)
  {
    hide After, InMinute, Recent, Window;
    ReachableInv(limit, start, steps);
    var v := After(limit, steps);
    RecentCounts(v.fetches, v.history, limit, Latest(start, steps), now);
  }

  /** What each step leaves: a lookup forgets at most the lapsed key and refusal it found, and starts a fetch
      exactly when it answers so; the other steps set or clear one entry. */
  lemma StepEffect(v: Verifier, limit: nat, s: Step)
    ensures var w := Apply(v, limit, s);
            match s
            case Look(id, now) =>
              var fetches := LookupOf(v, limit, id, now).Fetch?;
              && w.cache == (if LiveKey(v, id, now) then v.cache else v.cache - {id})
              && w.refused == (if LiveKey(v, id, now) || LiveRefusal(v, id, now) then v.refused else v.refused - {id})
              && w.inflight == (if fetches then v.inflight + {id} else v.inflight)
              && w.history == (if fetches then v.history + [now] else v.history)
            case StoreKey(id, until, key) => w == v.(cache := w.cache) && w.cache == v.cache[id := CachedKey(until, key)]
            case RememberRefusal(id, until) => w == v.(refused := w.refused) && w.refused == v.refused[id := until]
            case Complete(id) => w == v.(inflight := w.inflight) && w.inflight == v.inflight - {id}
  {
    hide Recent;
  }
}
