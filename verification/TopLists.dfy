// What the top-N lists of a minute report have in common: the first entries of a ranking of flagged slots.
module TopLists {
  import opened Ranking
  import opened MinuteReport

  lemma RankedSlotsTaken(order: seq<nat>, flags: seq<bool>, lo: nat, hi: nat, keys: seq<int>)
    requires hi <= |flags| && Ranked(order, Slots(flags, lo, hi), keys)
    ensures forall k :: 0 <= k < |order| ==> lo <= order[k] < hi && flags[order[k]]
  {
    hide Slots;
    hide Lists;
    var slots := Slots(flags, lo, hi);
    SlotsMeaning(flags, lo, hi);
    forall k | 0 <= k < |order|
      ensures lo <= order[k] < hi && flags[order[k]]
    {
      SameContent(order, slots, k);
      ListedIsFlagged(slots, flags, lo, hi, order[k]);
    }
  }

  lemma ListedIsFlagged(slots: seq<nat>, flags: seq<bool>, from: nat, i: nat, v: nat)
    requires i <= |flags| && Lists(slots, flags, from, i) && v in slots
    ensures from <= v < i && flags[v]
  {
  }

  lemma SameContent(order: seq<nat>, slots: seq<nat>, k: nat)
    requires multiset(order) == multiset(slots) && k < |order|
    ensures order[k] in slots
  {
    assert order[k] in multiset(order);
  }

  /** A slot is ranked exactly when its flag is set. */
  lemma RankedIffFlagged(order: seq<nat>, flags: seq<bool>, lo: nat, hi: nat, keys: seq<int>, a: nat)
    requires lo <= a < hi <= |flags| && Ranked(order, Slots(flags, lo, hi), keys)
    ensures a in order <==> flags[a]
  {
    hide Slots;
    var slots := Slots(flags, lo, hi);
    SlotsMeaning(flags, lo, hi);
    assert a in order <==> a in multiset(order);
    assert a in slots <==> a in multiset(slots);
  }

  /** rows lists n of the picked slots, or all of them if there are not so many, each once and in descending
      order of count; what is left out does not count more than anything listed. */
  ghost predicate IsTop(rows: seq<nat>, n: nat, pick: nat -> bool, count: nat -> int) {
    && |rows| <= n
    && (forall x :: 0 <= x < |rows| ==> pick(rows[x]))
    && (forall x, y :: 0 <= x < y < |rows| ==> rows[x] != rows[y] && count(rows[x]) >= count(rows[y]))
    && (forall j, x :: pick(j) && j !in rows && 0 <= x < |rows| ==> count(j) <= count(rows[x]))
    && (forall j :: pick(j) && j !in rows ==> |rows| == n)
  }

  lemma {:induction false} RisingOnce(s: seq<nat>, v: nat)
    requires forall k, l :: 0 <= k < l < |s| ==> s[k] < s[l]
    ensures multiset(s)[v] <= 1
    decreases |s|
  {
    if s != [] {
      var n := |s| - 1;
      assert s == s[..n] + [s[n]];
      RisingOnce(s[..n], v);
      assert v in multiset(s[..n]) <==> v in s[..n];
    }
  }

  lemma OnceIsDistinct(s: seq<nat>, x: nat, y: nat)
    requires x < y < |s| && multiset(s)[s[x]] <= 1
    ensures s[x] != s[y]
  {
    assert s == s[..y] + s[y..];
    assert s[x] == s[..y][x];
    assert s[y] == s[y..][0];
    assert s[x] in multiset(s[..y]) && s[y] in multiset(s[y..]);
  }

  lemma SameAsRising(order: seq<nat>, slots: seq<nat>)
    requires multiset(order) == multiset(slots) && forall k, l :: 0 <= k < l < |slots| ==> slots[k] < slots[l]
    ensures forall x, y :: 0 <= x < y < |order| ==> order[x] != order[y]
  {
    forall x, y | 0 <= x < y < |order|
      ensures order[x] != order[y]
    {
      RisingOnce(slots, order[x]);
      OnceIsDistinct(order, x, y);
    }
  }

  /** A ranking of the flagged slots has each of them once. */
  lemma RankedOnce(order: seq<nat>, flags: seq<bool>, lo: nat, hi: nat, keys: seq<int>)
    requires hi <= |flags| && Ranked(order, Slots(flags, lo, hi), keys)
    ensures forall x, y :: 0 <= x < y < |order| ==> order[x] != order[y]
  {
    hide Slots;
    SlotsMeaning(flags, lo, hi);
    SameAsRising(order, Slots(flags, lo, hi));
  }

  /** The first rows of a ranking of the flagged slots are the top of them. */
  lemma RankedIsTop(order: seq<nat>, flags: seq<bool>, lo: nat, hi: nat, keys: seq<int>, n: nat, pick: nat -> bool, count: nat -> int)
    requires hi <= |flags| && Ranked(order, Slots(flags, lo, hi), keys)
    requires forall a: nat :: pick(a) <==> lo <= a < hi && flags[a]
    requires forall a: nat :: pick(a) ==> KeyOf(keys, a) == count(a)
    ensures IsTop(Top(order, n), n, pick, count)
  {
    hide Slots;
    RankedOnce(order, flags, lo, hi, keys);
    RankedSlotsTaken(order, flags, lo, hi, keys);
    forall j: nat | pick(j)
      ensures j in order
    {
      RankedIffFlagged(order, flags, lo, hi, keys, j);
    }
    FirstAreTop(order, n, pick, count);
  }

  lemma FirstAreTop(order: seq<nat>, n: nat, pick: nat -> bool, count: nat -> int)
    requires forall x :: 0 <= x < |order| ==> pick(order[x])
    requires forall x, y :: 0 <= x < y < |order| ==> order[x] != order[y] && count(order[x]) >= count(order[y])
    requires forall j: nat :: pick(j) ==> j in order
    ensures IsTop(Top(order, n), n, pick, count)
  {
    var rows := Top(order, n);
    assert forall z :: 0 <= z < |rows| ==> rows[z] == order[z] && order[z] in rows;
    forall j: nat, x | pick(j) && j !in rows && 0 <= x < |rows|
      ensures count(j) <= count(rows[x])
    {
      var y :| 0 <= y < |order| && order[y] == j;
      assert y >= |rows|;
    }
    if |order| <= n {
      assert rows == order;
    }
  }
}
