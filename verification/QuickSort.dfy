// The in-place quicksort of utils/sort.c.
module QuickSort {

  /** The comparators that quicksort is given: cmp(a, b) <= 0 is a total preorder. */
  ghost predicate TotalPreorder<T(!new)>(cmp: (T, T) -> int) {
    && (forall a, b :: cmp(a, b) <= 0 || cmp(b, a) <= 0)
    && (forall a, b, c :: cmp(a, b) <= 0 && cmp(b, c) <= 0 ==> cmp(a, c) <= 0)
  }

  lemma Reflexive<T(!new)>(cmp: (T, T) -> int, a: T)
    requires TotalPreorder(cmp)
    ensures cmp(a, a) <= 0
  {
  }

  ghost predicate SortedRange<T>(s: seq<T>, m: int, n: int, cmp: (T, T) -> int)
    requires m <= n ==> 0 <= m && n < |s|
  {
    forall x, y :: m <= x < y <= n ==> cmp(s[x], s[y]) <= 0
  }

  /** b has the elements of a, rearranged inside [m, n] only. */
  ghost predicate Permuted<T>(a: seq<T>, b: seq<T>, m: int, n: int) {
    && |a| == |b|
    && (m <= n ==> 0 <= m && n < |a| && multiset(a[m..n + 1]) == multiset(b[m..n + 1]))
    && (forall i :: 0 <= i < |a| && !(m <= i <= n) ==> a[i] == b[i])
  }

  lemma OneElement<T>(a: seq<T>, m: int, n: int, cmp: (T, T) -> int)
    requires m <= n ==> m == n && 0 <= m && n < |a|
    ensures Permuted(a, a, m, n) && SortedRange(a, m, n, cmp)
  {
  }

  lemma PermutedTrans<T>(a: seq<T>, b: seq<T>, c: seq<T>, m: int, n: int)
    requires Permuted(a, b, m, n) && Permuted(b, c, m, n)
    ensures Permuted(a, c, m, n)
  {
  }

  lemma PermutedWiden<T>(a: seq<T>, b: seq<T>, m: int, n: int, m': int, n': int)
    requires 0 <= m <= n < |a| && m <= m' && n' <= n
    requires Permuted(a, b, m', n')
    ensures Permuted(a, b, m, n)
  {
    if m' <= n' {
      assert a[m..n + 1] == a[m..m'] + a[m'..n' + 1] + a[n' + 1..n + 1];
      assert b[m..n + 1] == b[m..m'] + b[m'..n' + 1] + b[n' + 1..n + 1];
      assert a[m..m'] == b[m..m'] && a[n' + 1..n + 1] == b[n' + 1..n + 1];
    } else {
      assert a == b;
    }
  }

  lemma PermutedSelf<T>(a: seq<T>, m: int, n: int)
    requires m <= n ==> 0 <= m && n < |a|
    ensures Permuted(a, a, m, n)
  {
  }

  lemma PermutedSwap<T>(a0: seq<T>, a: seq<T>, x: int, y: int, m: int, n: int)
    requires 0 <= m <= x <= y <= n < |a| && Permuted(a0, a, m, n)
    ensures Permuted(a0, a[x := a[y]][y := a[x]], m, n)
  {
    var b := a[x := a[y]][y := a[x]];
    if x < y {
      assert a[x..y + 1] == [a[x]] + a[x + 1..y] + [a[y]];
      assert b[x..y + 1] == [a[y]] + a[x + 1..y] + [a[x]];
      PermutedWiden(a, b, m, n, x, y);
    } else {
      assert a == b;
    }
  }

  /** A rearranged range has no new element. */
  lemma PermutedSource<T>(a: seq<T>, b: seq<T>, m: int, n: int, i: int) returns (k: int)
    requires 0 <= m <= i <= n < |a| && Permuted(a, b, m, n)
    ensures m <= k <= n && a[k] == b[i]
  {
    assert b[i] == b[m..n + 1][i - m];
    assert b[i] in multiset(b[m..n + 1]);
    assert b[i] in a[m..n + 1];
    var j :| 0 <= j < n + 1 - m && a[m..n + 1][j] == b[i];
    k := m + j;
  }

  method Swap<T>(list: array<T>, x: int, y: int)
    requires 0 <= x < list.Length && 0 <= y < list.Length
    modifies list
    ensures list[..] == old(list[..])[x := old(list[y])][y := old(list[x])]
  {
    var temp := list[x];
    list[x] := list[y];
    list[y] := temp;
  }

  /** Everything in [m, n] but the pivot at j is on its side of the pivot. */
  ghost predicate Split<T>(s: seq<T>, m: int, j: int, n: int, cmp: (T, T) -> int)
    requires 0 <= m <= j <= n < |s|
  {
    && (forall x :: m <= x < j ==> cmp(s[x], s[j]) <= 0)
    && (forall x :: j < x <= n ==> cmp(s[x], s[j]) > 0)
  }

  /** The state of the partition loop: [m, i) is at most key, (j, n] is above it. */
  ghost predicate Parting<T>(s: seq<T>, m: int, n: int, i: int, j: int, key: T, cmp: (T, T) -> int)
  {
    && 0 <= m < i <= n + 1 && m <= j <= n < |s|
    && s[m] == key
    && (forall x :: m <= x < i ==> cmp(s[x], key) <= 0)
    && (forall x :: j < x <= n ==> cmp(s[x], key) > 0)
  }

  /** The partition loop always exits with j = i - 1. */
  method PartitionLoop<T>(list: array<T>, m: int, n: int, key: T, cmp: (T, T) -> int) returns (i: int, j: int)
    requires 0 <= m < n < list.Length && list[m] == key && cmp(key, key) <= 0
    modifies list
    ensures Permuted(old(list[..]), list[..], m, n)
    ensures Parting(list[..], m, n, i, j, key, cmp) && j == i - 1
  {
    hide Permuted;
    i, j := m + 1, n;
    PermutedSelf(list[..], m, n);
    while i <= j
      invariant Parting(list[..], m, n, i, j, key, cmp)
      invariant i > j ==> j == i - 1
      invariant Permuted(old(list[..]), list[..], m, n)
      decreases j - i, if i <= n && cmp(list[i], key) <= 0 then 0 else 1
    {
      while i <= n && cmp(list[i], key) <= 0
        invariant Parting(list[..], m, n, i, j, key, cmp)
      {
        i := i + 1;
      }
      while j >= m && cmp(list[j], key) > 0
        invariant Parting(list[..], m, n, i, j, key, cmp)
        decreases j
      {
        j := j - 1;
      }
      ghost var cross := if j + 1 < i then j + 1 else m;
      assert cmp(list[cross], key) <= 0;
      if i < j {
        PermutedSwap(old(list[..]), list[..], i, j, m, n);
        Swap(list, i, j);
      }
    }
  }

  method Partition<T(!new)>(list: array<T>, m: int, n: int, cmp: (T, T) -> int) returns (j: int)
    requires 0 <= m < n < list.Length && TotalPreorder(cmp)
    modifies list
    ensures m <= j <= n
    ensures Permuted(old(list[..]), list[..], m, n)
    ensures Split(list[..], m, j, n, cmp)
  {
    hide TotalPreorder;
    hide Permuted;
    hide Parting;
    hide Split;
    var k := (m + n) / 2;
    PermutedSelf(list[..], m, n);
    PermutedSwap(list[..], list[..], m, k, m, n);
    Swap(list, m, k);
    var key := list[m];
    Reflexive(cmp, key);
    ghost var s1 := list[..];
    var i;
    i, j := PartitionLoop(list, m, n, key, cmp);
    PermutedTrans(old(list[..]), s1, list[..], m, n);
    PivotBetween(list[..], m, n, i, j, key, cmp);
    PermutedSwap(old(list[..]), list[..], m, j, m, n);
    Swap(list, m, j);
  }

  /** Swapping the pivot with the last element that is not above it splits the range. */
  lemma PivotBetween<T>(s: seq<T>, m: int, n: int, i: int, j: int, key: T, cmp: (T, T) -> int)
    requires Parting(s, m, n, i, j, key, cmp) && j == i - 1
    ensures 0 <= m <= j <= n < |s| && Split(s[m := s[j]][j := s[m]], m, j, n, cmp)
  {
  }

  method Quicksort<T(!new)>(list: array<T>, m: int, n: int, cmp: (T, T) -> int)
    requires m <= n ==> 0 <= m && n < list.Length
    requires TotalPreorder(cmp)
    modifies list
    ensures Permuted(old(list[..]), list[..], m, n)
    ensures SortedRange(list[..], m, n, cmp)
    decreases n - m
  {
    hide TotalPreorder;
    hide Permuted;
    hide Split;
    hide SortedRange;
    if m < n {
      var j := Partition(list, m, n, cmp);
      ghost var s1 := list[..];
      Quicksort(list, m, j - 1, cmp);
      ghost var s2 := list[..];
      Quicksort(list, j + 1, n, cmp);
      SortedHalves(s1, s2, list[..], m, j, n, cmp);
      PermutedHalves(s1, s2, list[..], m, j, n);
      PermutedTrans(old(list[..]), s1, list[..], m, n);
    } else {
      OneElement(list[..], m, n, cmp);
    }
  }

  lemma BelowStaysBelow<T(!new)>(a: seq<T>, b: seq<T>, m: int, n: int, pivot: T, cmp: (T, T) -> int, x: int)
    requires 0 <= m <= x <= n < |a| == |b| && Permuted(a, b, m, n)
    requires forall k :: m <= k <= n ==> cmp(a[k], pivot) <= 0
    ensures cmp(b[x], pivot) <= 0
  {
    var k := PermutedSource(a, b, m, n, x);
  }

  lemma AboveStaysAbove<T(!new)>(a: seq<T>, b: seq<T>, m: int, n: int, pivot: T, cmp: (T, T) -> int, x: int)
    requires 0 <= m <= x <= n < |a| == |b| && Permuted(a, b, m, n)
    requires forall k :: m <= k <= n ==> cmp(a[k], pivot) > 0
    ensures cmp(b[x], pivot) > 0
  {
    var k := PermutedSource(a, b, m, n, x);
  }

  lemma AcrossPivot<T(!new)>(a: T, pivot: T, b: T, cmp: (T, T) -> int)
    requires TotalPreorder(cmp) && cmp(b, pivot) > 0
    ensures cmp(pivot, b) <= 0
    ensures cmp(a, pivot) <= 0 ==> cmp(a, b) <= 0
  {
  }

  lemma PermutedOutside<T>(a: seq<T>, b: seq<T>, m: int, n: int)
    requires Permuted(a, b, m, n)
    ensures |a| == |b| && forall i :: 0 <= i < |a| && !(m <= i <= n) ==> a[i] == b[i]
  {
  }

  lemma PermutedHalves<T>(s1: seq<T>, s2: seq<T>, s3: seq<T>, m: int, j: int, n: int)
    requires 0 <= m <= j <= n < |s1|
    requires Permuted(s1, s2, m, j - 1) && Permuted(s2, s3, j + 1, n)
    ensures Permuted(s1, s3, m, n)
  {
    PermutedWiden(s1, s2, m, n, m, j - 1);
    PermutedWiden(s2, s3, m, n, j + 1, n);
    PermutedTrans(s1, s2, s3, m, n);
  }

  lemma SortedHalves<T(!new)>(s1: seq<T>, s2: seq<T>, s3: seq<T>, m: int, j: int, n: int, cmp: (T, T) -> int)
    requires 0 <= m <= j <= n < |s1| == |s2| == |s3| && TotalPreorder(cmp)
    requires Split(s1, m, j, n, cmp)
    requires Permuted(s1, s2, m, j - 1) && Permuted(s2, s3, j + 1, n)
    requires SortedRange(s2, m, j - 1, cmp) && SortedRange(s3, j + 1, n, cmp)
    ensures SortedRange(s3, m, n, cmp)
  {
    hide TotalPreorder;
    hide Permuted;
    PermutedOutside(s1, s2, m, j - 1);
    PermutedOutside(s2, s3, j + 1, n);
    forall x | m <= x < j
      ensures cmp(s3[x], s3[j]) <= 0
    {
      BelowStaysBelow(s1, s2, m, j - 1, s1[j], cmp, x);
    }
    forall y | j < y <= n
      ensures cmp(s3[y], s3[j]) > 0
    {
      AboveStaysAbove(s2, s3, j + 1, n, s1[j], cmp, y);
    }
    JoinSorted(s3, m, j, n, cmp);
  }

  lemma JoinSorted<T(!new)>(s: seq<T>, m: int, j: int, n: int, cmp: (T, T) -> int)
    requires 0 <= m <= j <= n < |s| && TotalPreorder(cmp) && Split(s, m, j, n, cmp)
    requires SortedRange(s, m, j - 1, cmp) && SortedRange(s, j + 1, n, cmp)
    ensures SortedRange(s, m, n, cmp)
  {
    hide TotalPreorder;
    forall x, y | m <= x < y <= n
      ensures cmp(s[x], s[y]) <= 0
    {
      if j < y {
        AcrossPivot(s[x], s[j], s[y], cmp);
      }
    }
  }
}
