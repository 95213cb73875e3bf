/**
 The "did you mean" list (pkg/yxc/validate.go): the candidates closest to an
 unknown name, ties broken alphabetically.
*/
module Suggestions {
  import opened EditDistance
  import opened Sorting

  /** x is no worse a suggestion for `unknown` than y. */
  predicate Closer(unknown: string, x: string, y: string) {
    var dx, dy := Dist(unknown, x), Dist(unknown, y);
    if dx != dy then dx < dy else StringLe(x, y)
  }

  function ByDistance(unknown: string): (string, string) -> bool {
    (x, y) => Closer(unknown, x, y)
  }

  lemma {:induction false} ByDistanceIsOrder(unknown: string)
    ensures TotalOrder(ByDistance(unknown))
  {
    StringOrder();
    var le := ByDistance(unknown);
    assert forall x, y :: le(x, y) == Closer(unknown, x, y);
  }

  function Min(a: int, b: int): int {
    if a < b then a else b
  }

  /** The reference: the first n of the candidates in order of distance and name. */
  function Suggest(unknown: string, candidates: seq<string>, n: int): seq<string> {
    if n <= 0 then []
    else
      var all := Sort(ByDistance(unknown), candidates);
      all[..Min(n, |all|)]
  }

  datatype Scored = Scored(s: string, d: int)

  predicate ScoredLe(x: Scored, y: Scored) {
    if x.d != y.d then x.d < y.d else StringLe(x.s, y.s)
  }

  function Names(all: seq<Scored>): (names: seq<string>)
    ensures |names| == |all| && forall i | 0 <= i < |all| :: names[i] == all[i].s
  {
    seq(|all|, i requires 0 <= i < |all| => all[i].s)
  }

  predicate ScoredFor(unknown: string, all: seq<Scored>) {
    forall i | 0 <= i < |all| :: all[i].d == Dist(unknown, all[i].s)
  }

  lemma {:induction false} PlaceScored(unknown: string, x: Scored, all: seq<Scored>)
    requires ScoredFor(unknown, all) && x.d == Dist(unknown, x.s)
    ensures ScoredFor(unknown, Place(ScoredLe, x, all))
    ensures Names(Place(ScoredLe, x, all)) == Place(ByDistance(unknown), x.s, Names(all))
  {
    hide Dist, StringLe, Names;
    NamesOfOneMore(x, all);
    if all == [] {
    } else {
      var head, rest := all[0], all[1..];
      assert all == [head] + rest;
      NamesOfOneMore(head, rest);
      assert ByDistance(unknown)(x.s, head.s) == ScoredLe(x, head);
      if !ScoredLe(x, head) {
        PlaceScored(unknown, x, rest);
        NamesOfOneMore(head, Place(ScoredLe, x, rest));
      }
    }
  }

  lemma {:induction false} NamesOfOneMore(x: Scored, all: seq<Scored>)
    ensures Names([x] + all) == [x.s] + Names(all)
    ensures Names([x] + all)[1..] == Names(all)
  {
    hide Names;
    var names := Names([x] + all);
    forall i | 0 <= i < |all| ensures names[i + 1] == Names(all)[i] {
      assert ([x] + all)[i + 1] == all[i];
    }
    assert names[1..] == Names(all);
    assert names == [x.s] + names[1..];
  }

  /** Sorting scored pairs is sorting the names. */
  lemma {:induction false} SortScored(unknown: string, all: seq<Scored>)
    requires ScoredFor(unknown, all)
    ensures ScoredFor(unknown, Sort(ScoredLe, all))
    ensures Names(Sort(ScoredLe, all)) == Sort(ByDistance(unknown), Names(all))
  {
    if all == [] {
    } else {
      SortScored(unknown, all[1..]);
      PlaceScored(unknown, all[0], Sort(ScoredLe, all[1..]));
      assert Names(all)[1..] == Names(all[1..]);
    }
  }

  /** The code: score every candidate, sort the pairs, keep the first n names. */
  method DidYouMean(unknown: string, candidates: seq<string>, n: int) returns (out: seq<string>)
    ensures out == Suggest(unknown, candidates, n)
  {
    if n <= 0 || |candidates| == 0 {
      return [];
    }
    var all: seq<Scored> := [];
    for i := 0 to |candidates|
      invariant Names(all) == candidates[..i] && ScoredFor(unknown, all)
    {
      var d := Levenshtein(unknown, candidates[i]);
      all := all + [Scored(candidates[i], d)];
    }
    assert Names(all) == candidates;
    SortScored(unknown, all);
    all := Sort(ScoredLe, all);
    var count := if n > |all| then |all| else n;
    out := [];
    for i := 0 to count
      invariant out == Names(all)[..i]
    {
      out := out + [all[i].s];
    }
  }

  /** x is closer to `unknown` than y, or as close and not behind it in the alphabet. */
  predicate NoFarther(unknown: string, x: string, y: string) {
    Dist(unknown, x) <= Dist(unknown, y) && (Dist(unknown, x) == Dist(unknown, y) ==> StringLe(x, y))
  }

  /** The suggestions come closest first, and every candidate left out is no closer than
      any that is returned. */
  lemma {:induction false} SuggestKeepsTheClosest(unknown: string, candidates: seq<string>, n: int)
    ensures var out := Suggest(unknown, candidates, n);
      && |out| == (if n < 0 then 0 else if n < |candidates| then n else |candidates|)
      && multiset(out) <= multiset(candidates)
      && (forall i, j | 0 <= i < j < |out| :: NoFarther(unknown, out[i], out[j]))
      && forall kept, dropped | kept in out && dropped in multiset(candidates) - multiset(out) ::
           NoFarther(unknown, kept, dropped)
  {
    hide NoFarther, ByDistance, Sort;
    var le := ByDistance(unknown);
    var all := Sort(le, candidates);
    ByDistanceIsOrder(unknown);
    SortSorts(le, candidates);
    assert |all| == |multiset(all)| == |candidates|;
    var count := Min(if n < 0 then 0 else n, |candidates|);
    assert Suggest(unknown, candidates, n) == all[..count];
    FirstAreLeast(le, all, count);
    forall x, y | le(x, y) ensures NoFarther(unknown, x, y) {
      CloserMeans(unknown, x, y);
    }
  }

  lemma {:induction false} CloserMeans(unknown: string, x: string, y: string)
    ensures ByDistance(unknown)(x, y) <==> NoFarther(unknown, x, y)
  {
  }

  /** The answer does not depend on the order the candidates are listed in. */
  lemma {:induction false} SuggestIgnoresOrder(unknown: string, candidates: seq<string>, shuffled: seq<string>, n: int)
    requires multiset(candidates) == multiset(shuffled)
    ensures Suggest(unknown, candidates, n) == Suggest(unknown, shuffled, n)
  {
    ByDistanceIsOrder(unknown);
    SortIgnoresOrder(ByDistance(unknown), candidates, shuffled);
  }
}
