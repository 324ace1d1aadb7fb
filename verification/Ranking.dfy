// Top-N selection: the comparators of statproc/statproc_handlers.c and the use the report
// makes of the sorted pointer lists.
module Ranking {
  import opened QuickSort

  /** rcmp_*: larger keys first. */
  function Rcmp(ka: int, kb: int): int {
    if kb < ka then -1 else if kb > ka then 1 else 0
  }

  function Descending(keys: seq<int>): (nat, nat) -> int {
    (a: nat, b: nat) => Rcmp(KeyOf(keys, a), KeyOf(keys, b))
  }

  /** The key of slot a. */
  function KeyOf(keys: seq<int>, a: nat): int {
    if a < |keys| then keys[a] else 0
  }

  lemma DescendingIsPreorder(keys: seq<int>)
    ensures TotalPreorder(Descending(keys))
  {
  }

  /** order lists the candidates, largest key first. */
  ghost predicate Ranked(order: seq<nat>, candidates: seq<nat>, keys: seq<int>) {
    && multiset(order) == multiset(candidates)
    && forall x, y :: 0 <= x < y < |order| ==> KeyOf(keys, order[x]) >= KeyOf(keys, order[y])
  }

  lemma RankedLength(order: seq<nat>, candidates: seq<nat>, keys: seq<int>)
    requires Ranked(order, candidates, keys)
    ensures |order| == |candidates|
  {
    assert |multiset(order)| == |order| && |multiset(candidates)| == |candidates|;
  }

  function Min(a: nat, b: nat): nat {
    if a < b then a else b
  }

  /** The entries that a report with n places shows. */
  function Top(order: seq<nat>, n: nat): seq<nat> {
    order[..Min(n, |order|)]
  }

  /** The report shows candidates only, as many as there are places or candidates, in descending
      order, and no candidate left out exceeds one that is shown. */
  lemma TopIsTop(order: seq<nat>, candidates: seq<nat>, keys: seq<int>, n: nat)
    requires Ranked(order, candidates, keys)
    ensures |Top(order, n)| == Min(n, |candidates|)
    ensures forall r :: r in Top(order, n) ==> r in candidates
    ensures forall x, y :: 0 <= x < y < |Top(order, n)| ==> KeyOf(keys, Top(order, n)[x]) >= KeyOf(keys, Top(order, n)[y])
    ensures forall c, r :: c in candidates && c !in Top(order, n) && r in Top(order, n) ==>
              KeyOf(keys, c) <= KeyOf(keys, r)
  {
    assert |multiset(order)| == |order| && |multiset(candidates)| == |candidates|;
    forall r | r in Top(order, n)
      ensures r in candidates
    {
      assert r in multiset(order);
    }
    forall c, r | c in candidates && c !in Top(order, n) && r in Top(order, n)
      ensures KeyOf(keys, c) <= KeyOf(keys, r)
    {
      assert c in multiset(candidates) && c in order;
      var y :| 0 <= y < |order| && order[y] == c;
      var x :| 0 <= x < |Top(order, n)| && Top(order, n)[x] == r;
      var t := if y < |Top(order, n)| then y else x;
      assert Top(order, n)[t] in Top(order, n);
      assert order[x] == r && x < y;
    }
  }

  /** Sorts the first num pointers of the list. */
  method Rank(ptrs: array<nat>, num: nat, keys: seq<int>)
    requires num <= ptrs.Length
    modifies ptrs
    ensures Ranked(ptrs[..num], old(ptrs[..num]), keys)
    ensures ptrs[num..] == old(ptrs[num..])
  {
    hide TotalPreorder;
    DescendingIsPreorder(keys);
    Quicksort(ptrs, 0, num - 1, Descending(keys));
    RankFromSort(old(ptrs[..]), ptrs[..], num, keys);
    assert ptrs[..][..num] == ptrs[..num] && old(ptrs[..])[..num] == old(ptrs[..num]);
    assert ptrs[..][num..] == ptrs[num..] && old(ptrs[..])[num..] == old(ptrs[num..]);
  }

  lemma RankFromSort(a: seq<nat>, b: seq<nat>, num: nat, keys: seq<int>)
    requires num <= |a| && Permuted(a, b, 0, num - 1)
    requires SortedRange(b, 0, num - 1, Descending(keys))
    ensures Ranked(b[..num], a[..num], keys) && b[num..] == a[num..]
  {
    if num > 0 {
      assert a[0..num - 1 + 1] == a[..num] && b[0..num - 1 + 1] == b[..num];
    }
    forall x, y | 0 <= x < y < num
      ensures KeyOf(keys, b[x]) >= KeyOf(keys, b[y])
    {
      assert Descending(keys)(b[x], b[y]) <= 0;
    }
  }
}
