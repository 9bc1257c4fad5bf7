/** Sequence facts shared by the accounting models: duplicates, order-preserving
    selections, and the enumeration of all selections of a given size. */
module Sequences {

  ghost predicate Distinct<T>(s: seq<T>) {
    forall i, j :: 0 <= i < j < |s| ==> s[i] != s[j]
  }

  /** `g` is `s` with some elements left out, in the same order. */
  ghost predicate Subseq<T>(g: seq<T>, s: seq<T>)
    decreases s
  {
    if g == [] then true
    else if s == [] then false
    else (g[0] == s[0] && Subseq(g[1..], s[1..])) || Subseq(g, s[1..])
  }

  function PrefixAll<T>(x: T, groups: seq<seq<T>>): (r: seq<seq<T>>)
    ensures |r| == |groups|
    ensures forall i :: 0 <= i < |groups| ==> r[i] == [x] + groups[i]
  {
    seq(|groups|, i requires 0 <= i < |groups| => [x] + groups[i])
  }

  /** All selections of `k` elements, in the order Python's itertools.combinations
      yields them: those that take the first element come first. */
  function Combinations<T>(s: seq<T>, k: nat): (r: seq<seq<T>>)
    decreases s
  {
    if k == 0 then [[]]
    else if s == [] then []
    else PrefixAll(s[0], Combinations(s[1..], k - 1)) + Combinations(s[1..], k)
  }

  lemma {:induction false} SubseqElements<T>(g: seq<T>, s: seq<T>, x: T)
    requires Subseq(g, s) && x in g
    ensures x in s
    decreases s
  {
    if g[0] == s[0] && Subseq(g[1..], s[1..]) {
      if x != g[0] { SubseqElements(g[1..], s[1..], x); }
    } else {
      SubseqElements(g, s[1..], x);
    }
  }

  lemma InPrefixAll<T>(x: T, groups: seq<seq<T>>, g: seq<T>)
    ensures g in PrefixAll(x, groups) <==> g != [] && g[0] == x && g[1..] in groups
  {
    var r := PrefixAll(x, groups);
    if g in r {
      var i :| 0 <= i < |r| && r[i] == g;
      assert g[1..] == groups[i];
    }
    if g != [] && g[0] == x && g[1..] in groups {
      var i :| 0 <= i < |groups| && groups[i] == g[1..];
      assert r[i] == g;
    }
  }

  lemma CombinationsStep<T>(s: seq<T>, k: nat)
    requires s != [] && k > 0
    ensures Combinations(s, k) == PrefixAll(s[0], Combinations(s[1..], k - 1)) + Combinations(s[1..], k)
  {
    hide PrefixAll;
  }

  lemma SubseqStep<T>(g: seq<T>, s: seq<T>)
    requires g != [] && s != []
    ensures Subseq(g, s) <==> (g[0] == s[0] && Subseq(g[1..], s[1..])) || Subseq(g, s[1..])
  {
  }

  lemma NothingToSelect<T>(s: seq<T>, k: nat, g: seq<T>)
    requires k == 0 || s == []
    ensures g in Combinations(s, k) <==> |g| == k && Subseq(g, s)
  {
  }

  /** The enumeration misses no selection and invents none. */
  lemma {:induction false} CombinationsComplete<T>(s: seq<T>, k: nat, g: seq<T>)
    ensures g in Combinations(s, k) <==> |g| == k && Subseq(g, s)
    decreases s
  {
    hide Combinations, Subseq, PrefixAll;
    if k == 0 || s == [] {
      NothingToSelect(s, k, g);
    } else {
      CombinationsStep(s, k);
      CombinationsComplete(s[1..], k, g);
      InPrefixAll(s[0], Combinations(s[1..], k - 1), g);
      if g != [] {
        CombinationsComplete(s[1..], k - 1, g[1..]);
        SubseqStep(g, s);
      }
    }
  }

  /** The enumeration lists every selection once. */
  lemma {:induction false} CombinationsDistinct<T>(s: seq<T>, k: nat)
    requires Distinct(s)
    ensures Distinct(Combinations(s, k))
    decreases s
  {
    if k == 0 {
    } else if s == [] {
    } else {
      var taken, rest := Combinations(s[1..], k - 1), Combinations(s[1..], k);
      var first := PrefixAll(s[0], taken);
      CombinationsDistinct(s[1..], k - 1);
      CombinationsDistinct(s[1..], k);
      forall i, j | 0 <= i < j < |first| ensures first[i] != first[j] {
        assert first[i][1..] == taken[i] && first[j][1..] == taken[j];
      }
      forall i, j | 0 <= i < |first| && 0 <= j < |rest| ensures first[i] != rest[j] {
        CombinationsComplete(s[1..], k, rest[j]);
        assert rest[j] in rest;
        if rest[j][0] == s[0] { SubseqElements(rest[j], s[1..], s[0]); }
      }
    }
  }

  lemma SubsetCardinality<T>(a: set<T>, b: set<T>)
    requires a <= b
    ensures |a| <= |b|
  {
    assert b == a + (b - a);
  }
}
