// The chained hash table of utils/hashtable.c on values: a sequence of chains of key/value
// pairs.  Module HashTables ties the linked buckets to these functions; here they are shown
// to behave as a finite map.
module ChainTable {
  import opened BucketCount

  datatype Option<+T> = None | Some(value: T)

  /** eq is keycmp(..) == 0 and hash is hashFunction. */
  datatype Keys<!K> = Keys(eq: (K, K) -> bool, hash: K -> nat)

  type Chain<K, V> = seq<(K, V)>
  type Table<K, V> = seq<Chain<K, V>>

  ghost predicate Lawful<K(!new)>(ks: Keys<K>) {
    && (forall a :: ks.eq(a, a))
    && (forall a, b :: ks.eq(a, b) ==> ks.eq(b, a))
    && (forall a, b, c :: ks.eq(a, b) && ks.eq(b, c) ==> ks.eq(a, c))
    && (forall a, b :: ks.eq(a, b) ==> ks.hash(a) == ks.hash(b))
  }

  function Bucket<K>(ks: Keys<K>, k: K, n: nat): (b: nat)
    requires n > 0
    ensures b < n
  {
    ks.hash(k) % n
  }

  /** Where k sits in a chain, or the chain's length. */
  function IndexIn<K, V>(ks: Keys<K>, c: Chain<K, V>, k: K): (i: nat)
    ensures i <= |c|
    ensures i < |c| ==> ks.eq(k, c[i].0)
    ensures forall j :: 0 <= j < i ==> !ks.eq(k, c[j].0)
  {
    if c == [] || ks.eq(k, c[0].0) then 0 else 1 + IndexIn(ks, c[1..], k)
  }

  function Find<K, V>(ks: Keys<K>, c: Chain<K, V>, k: K): Option<V> {
    var i := IndexIn(ks, c, k);
    if i < |c| then Some(c[i].1) else None
  }

  function Lookup<K, V>(ks: Keys<K>, t: Table<K, V>, k: K): Option<V>
    requires |t| > 0
  {
    Find(ks, t[Bucket(ks, k, |t|)], k)
  }

  /** No two pairs of the chain have equal keys. */
  ghost predicate Distinct<K, V>(ks: Keys<K>, c: Chain<K, V>) {
    forall i, j :: 0 <= i < j < |c| ==> !ks.eq(c[i].0, c[j].0)
  }

  /** Each chain is duplicate-free and holds only keys that hash to its bucket. */
  ghost predicate WellFormed<K, V>(ks: Keys<K>, t: Table<K, V>) {
    && |t| > 0
    && (forall b :: 0 <= b < |t| ==> Distinct(ks, t[b]))
    && (forall b, i :: 0 <= b < |t| && 0 <= i < |t[b]| ==> Bucket(ks, t[b][i].0, |t|) == b)
  }

  function SizeTo<K, V>(t: Table<K, V>, n: nat): nat
    requires n <= |t|
  {
    if n == 0 then 0 else SizeTo(t, n - 1) + |t[n - 1]|
  }

  function Size<K, V>(t: Table<K, V>): nat {
    SizeTo(t, |t|)
  }

  function Empty<K, V>(n: nat): (t: Table<K, V>)
    ensures |t| == n
  {
    seq(n, i => [])
  }

  // ----- the operations -----

  function PutPair<K, V>(ks: Keys<K>, t: Table<K, V>, key: K, value: V): (r: Table<K, V>)
    requires |t| > 0
    ensures |r| == |t|
  {
    var b := Bucket(ks, key, |t|);
    var i := IndexIn(ks, t[b], key);
    if i < |t[b]| then t[b := t[b][i := (key, value)]] else t[b := [(key, value)] + t[b]]
  }

  /** The sequence with the element at i unlinked. */
  function Without<T>(c: seq<T>, i: nat): (r: seq<T>)
    requires i < |c|
    ensures |r| == |c| - 1
    ensures forall x :: 0 <= x < i ==> r[x] == c[x]
    ensures forall x :: i <= x < |r| ==> r[x] == c[x + 1]
  {
    c[..i] + c[i + 1..]
  }

  function RemovePair<K, V>(ks: Keys<K>, t: Table<K, V>, key: K): (r: Table<K, V>)
    requires |t| > 0
    ensures |r| == |t|
  {
    var b := Bucket(ks, key, |t|);
    var i := IndexIn(ks, t[b], key);
    if i < |t[b]| then t[b := Without(t[b], i)] else t
  }

  /** Links a pair in front of its new chain. */
  function PushPair<K, V>(ks: Keys<K>, t: Table<K, V>, p: (K, V)): (r: Table<K, V>)
    requires |t| > 0
    ensures |r| == |t|
  {
    var b := Bucket(ks, p.0, |t|);
    t[b := [p] + t[b]]
  }

  function Relink<K, V>(ks: Keys<K>, pairs: Chain<K, V>, t: Table<K, V>): (r: Table<K, V>)
    requires |t| > 0
    ensures |r| == |t|
    decreases |pairs|
  {
    if pairs == [] then t else Relink(ks, pairs[1..], PushPair(ks, t, pairs[0]))
  }

  /** The pairs of the first n buckets, in the order the rehash visits them. */
  function Flatten<K, V>(t: Table<K, V>, n: nat): Chain<K, V>
    requires n <= |t|
  {
    if n == 0 then [] else Flatten(t, n - 1) + t[n - 1]
  }

  function RehashTo<K, V>(ks: Keys<K>, t: Table<K, V>, n: nat): (r: Table<K, V>)
    requires n > 0
  {
    if n == |t| then t else Relink(ks, Flatten(t, |t|), Empty(n))
  }

  /** A request for 0 buckets means: choose the number. */
  ghost function Rehashed<K, V>(ks: Keys<K>, t: Table<K, V>, n: nat): (r: Table<K, V>) {
    RehashTo(ks, t, if n == 0 then Ideal(Size(t)) else n)
  }

  /** The load rule after a pair was added: more than 15 elements a bucket. */
  ghost function AfterPut<K, V>(ks: Keys<K>, t: Table<K, V>, key: K, value: V): (r: Table<K, V>)
    requires |t| > 0
  {
    var u := PutPair(ks, t, key, value);
    if Lookup(ks, t, key).None? && Size(u) > 15 * |u| then Rehashed(ks, u, 0) else u
  }

  // ----- one call at a time -----

  lemma {:induction false} SizeOfUpdate<K, V>(t: Table<K, V>, b: nat, c: Chain<K, V>, n: nat)
    requires b < |t| && n <= |t|
    ensures SizeTo(t[b := c], n) == SizeTo(t, n) + if b < n then |c| - |t[b]| else 0
  {
    if n > 0 {
      SizeOfUpdate(t, b, c, n - 1);
    }
  }

  /** In a duplicate-free chain any pair with an equal key is the one that is found. */
  lemma FindAt<K(!new), V>(ks: Keys<K>, c: Chain<K, V>, k: K, i: nat)
    requires Lawful(ks) && Distinct(ks, c) && i < |c| && ks.eq(k, c[i].0)
    ensures IndexIn(ks, c, k) == i && Find(ks, c, k) == Some(c[i].1)
  {
    var j := IndexIn(ks, c, k);
    assert ks.eq(c[j].0, k);
    assert ks.eq(c[j].0, c[i].0);
  }

  lemma OnlyMatch<K(!new), V>(ks: Keys<K>, c: Chain<K, V>, k: K, i: nat)
    requires Lawful(ks) && Distinct(ks, c) && i < |c|
    ensures ks.eq(k, c[i].0) ==> IndexIn(ks, c, k) == i
  {
    if ks.eq(k, c[i].0) {
      FindAt(ks, c, k, i);
    }
  }

  lemma ReplaceInChain<K(!new), V>(ks: Keys<K>, c: Chain<K, V>, key: K, value: V, k: K)
    requires Lawful(ks) && Distinct(ks, c) && IndexIn(ks, c, key) < |c|
    ensures var d := c[IndexIn(ks, c, key) := (key, value)];
            Distinct(ks, d)
            && Find(ks, d, k) == if ks.eq(k, key) then Some(value) else Find(ks, c, k)
  {
    var i := IndexIn(ks, c, key);
    var d: Chain<K, V> := c[i := (key, value)];
    forall x, y | 0 <= x < y < |d|
      ensures !ks.eq(d[x].0, d[y].0)
    {
      assert !ks.eq(c[x].0, c[y].0);
    }
    var j := IndexIn(ks, c, k);
    if ks.eq(k, key) {
      FindAt(ks, d, k, i);
    } else if j < |c| {
      assert j != i;
      FindAt(ks, d, k, j);
    } else {
      forall x | 0 <= x < |d|
        ensures !ks.eq(k, d[x].0)
      {
        assert x != i ==> d[x] == c[x];
      }
    }
  }

  lemma WithoutIsDistinct<K(!new), V>(ks: Keys<K>, c: Chain<K, V>, i: nat)
    requires Distinct(ks, c) && i < |c|
    ensures Distinct(ks, Without(c, i))
  {
    var d: Chain<K, V> := Without(c, i);
    forall x, y | 0 <= x < y < |d|
      ensures !ks.eq(d[x].0, d[y].0)
    {
      assert d[x] == c[if x < i then x else x + 1] && d[y] == c[if y < i then y else y + 1];
    }
  }

  lemma RemoveInChain<K(!new), V>(ks: Keys<K>, c: Chain<K, V>, key: K, k: K)
    requires Lawful(ks) && Distinct(ks, c) && IndexIn(ks, c, key) < |c|
    ensures Find(ks, Without(c, IndexIn(ks, c, key)), k) == if ks.eq(k, key) then None else Find(ks, c, k)
  {
    var i := IndexIn(ks, c, key);
    var d: Chain<K, V> := Without(c, i);
    WithoutIsDistinct(ks, c, i);
    var j := IndexIn(ks, c, k);
    if ks.eq(k, key) {
      FindAt(ks, c, k, i);
    }
    if j < |c| && j != i {
      FindAt(ks, d, k, if j < i then j else j - 1);
    } else {
      NoneWithout(ks, c, i, k);
    }
  }

  lemma NoneWithout<K(!new), V>(ks: Keys<K>, c: Chain<K, V>, i: nat, k: K)
    requires Lawful(ks) && Distinct(ks, c) && i < |c| && (IndexIn(ks, c, k) >= |c| || IndexIn(ks, c, k) == i)
    ensures forall x :: 0 <= x < |Without(c, i)| ==> !ks.eq(k, Without(c, i)[x].0)
  {
    var d: Chain<K, V> := Without(c, i);
    forall x | 0 <= x < |d|
      ensures !ks.eq(k, d[x].0)
    {
      var y: nat := if x < i then x else x + 1;
      assert d[x] == c[y];
      OnlyMatch(ks, c, k, y);
    }
  }

  lemma FindAfterFront<K(!new), V>(ks: Keys<K>, c: Chain<K, V>, p: (K, V), k: K)
    ensures Find(ks, [p] + c, k) == if ks.eq(k, p.0) then Some(p.1) else Find(ks, c, k)
  {
    assert ([p] + c)[1..] == c;
  }

  lemma PushIsInsert<K(!new), V>(ks: Keys<K>, t: Table<K, V>, p: (K, V), k: K)
    requires Lawful(ks) && WellFormed(ks, t) && Lookup(ks, t, p.0) == None
    ensures WellFormed(ks, PushPair(ks, t, p))
    ensures Lookup(ks, PushPair(ks, t, p), k) == if ks.eq(k, p.0) then Some(p.1) else Lookup(ks, t, k)
    ensures Size(PushPair(ks, t, p)) == Size(t) + 1
  {
    var b := Bucket(ks, p.0, |t|);
    FindAfterFront(ks, t[b], p, k);
    SizeOfUpdate(t, b, [p] + t[b], |t|);
    var u: Table<K, V> := PushPair(ks, t, p);
    forall i, j | 0 <= i < j < |u[b]|
      ensures !ks.eq(u[b][i].0, u[b][j].0)
    {
      if i > 0 {
        assert u[b][i] == t[b][i - 1] && u[b][j] == t[b][j - 1];
      }
    }
  }

  lemma PutIsUpdate<K(!new), V>(ks: Keys<K>, t: Table<K, V>, key: K, value: V, k: K)
    requires Lawful(ks) && WellFormed(ks, t)
    ensures WellFormed(ks, PutPair(ks, t, key, value))
    ensures Lookup(ks, PutPair(ks, t, key, value), k) == if ks.eq(k, key) then Some(value) else Lookup(ks, t, k)
    ensures Size(PutPair(ks, t, key, value)) == Size(t) + if Lookup(ks, t, key).None? then 1 else 0
  {
    var b := Bucket(ks, key, |t|);
    var i := IndexIn(ks, t[b], key);
    if i < |t[b]| {
      SizeOfUpdate(t, b, t[b][i := (key, value)], |t|);
      ReplaceInChain(ks, t[b], key, value, k);
    } else {
      assert PutPair(ks, t, key, value) == PushPair(ks, t, (key, value));
      PushIsInsert(ks, t, (key, value), k);
    }
  }

  lemma RemoveIsDelete<K(!new), V>(ks: Keys<K>, t: Table<K, V>, key: K, k: K)
    requires Lawful(ks) && WellFormed(ks, t)
    ensures WellFormed(ks, RemovePair(ks, t, key))
    ensures Lookup(ks, RemovePair(ks, t, key), k) == if ks.eq(k, key) then None else Lookup(ks, t, k)
    ensures Size(RemovePair(ks, t, key)) == Size(t) - if Lookup(ks, t, key).None? then 0 else 1
  {
    var b := Bucket(ks, key, |t|);
    var i := IndexIn(ks, t[b], key);
    if i < |t[b]| {
      SizeOfUpdate(t, b, Without(t[b], i), |t|);
      RemoveInChain(ks, t[b], key, k);
      WithoutIsDistinct(ks, t[b], i);
    }
  }

  // ----- rehashing -----

  lemma {:induction false} FindInConcat<K(!new), V>(ks: Keys<K>, a: Chain<K, V>, b: Chain<K, V>, k: K)
    ensures Find(ks, a + b, k) == if Find(ks, a, k).Some? then Find(ks, a, k) else Find(ks, b, k)
  {
    if a == [] {
      assert a + b == b;
    } else {
      assert a == [a[0]] + a[1..] && a + b == [a[0]] + (a[1..] + b);
      FindAfterFront(ks, a[1..], a[0], k);
      FindAfterFront(ks, a[1..] + b, a[0], k);
      FindInConcat(ks, a[1..], b, k);
    }
  }

  /** Walking the buckets in order meets each stored pair once, and finds what a lookup finds. */
  lemma {:induction false} FlattenFind<K(!new), V>(ks: Keys<K>, t: Table<K, V>, n: nat, k: K)
    requires Lawful(ks) && WellFormed(ks, t) && n <= |t|
    ensures |Flatten(t, n)| == SizeTo(t, n)
    ensures Find(ks, Flatten(t, n), k) == if Bucket(ks, k, |t|) < n then Lookup(ks, t, k) else None
  {
    if n > 0 {
      FlattenFind(ks, t, n - 1, k);
      FindInConcat(ks, Flatten(t, n - 1), t[n - 1], k);
      var i := IndexIn(ks, t[n - 1], k);
      assert i < |t[n - 1]| ==> Bucket(ks, t[n - 1][i].0, |t|) == Bucket(ks, k, |t|);
    }
  }

  lemma NotInEarlierBuckets<K(!new), V>(ks: Keys<K>, t: Table<K, V>, n: nat, i: nat, j: nat)
    requires Lawful(ks) && WellFormed(ks, t) && n < |t| && i < |Flatten(t, n)| && j < |t[n]|
    ensures !ks.eq(Flatten(t, n)[i].0, t[n][j].0)
  {
    FlattenFind(ks, t, n, t[n][j].0);
    assert IndexIn(ks, Flatten(t, n), t[n][j].0) == |Flatten(t, n)|;
  }

  /** A pair's key is not found among the pairs before it. */
  lemma {:induction false} FlattenDistinct<K(!new), V>(ks: Keys<K>, t: Table<K, V>, n: nat)
    requires Lawful(ks) && WellFormed(ks, t) && n <= |t|
    ensures Distinct(ks, Flatten(t, n))
  {
    if n > 0 {
      FlattenDistinct(ks, t, n - 1);
      var f: Chain<K, V>, c: Chain<K, V> := Flatten(t, n - 1), t[n - 1];
      assert Distinct(ks, c);
      hide WellFormed;
      hide Lawful;
      forall i, j | 0 <= i < |f| && 0 <= j < |c|
        ensures !ks.eq(f[i].0, c[j].0)
      {
        NotInEarlierBuckets(ks, t, n - 1, i, j);
      }
    }
  }

  lemma {:induction false} RelinkIsUnion<K(!new), V>(ks: Keys<K>, pairs: Chain<K, V>, t: Table<K, V>, k: K)
    requires Lawful(ks) && WellFormed(ks, t) && Distinct(ks, pairs)
    requires forall i :: 0 <= i < |pairs| ==> Lookup(ks, t, pairs[i].0) == None
    ensures WellFormed(ks, Relink(ks, pairs, t))
    ensures Lookup(ks, Relink(ks, pairs, t), k)
            == if Find(ks, pairs, k).Some? then Find(ks, pairs, k) else Lookup(ks, t, k)
    ensures Size(Relink(ks, pairs, t)) == Size(t) + |pairs|
    decreases |pairs|
  {
    if pairs != [] {
      var p, rest: Chain<K, V> := pairs[0], pairs[1..];
      var u: Table<K, V> := PushPair(ks, t, p);
      PushIsInsert(ks, t, p, k);
      forall i | 0 <= i < |rest|
        ensures Lookup(ks, u, rest[i].0) == None
      {
        assert rest[i] == pairs[i + 1];
        PushIsInsert(ks, t, p, rest[i].0);
      }
      RelinkIsUnion(ks, rest, u, k);
      assert pairs == [p] + rest;
      FindAfterFront(ks, rest, p, k);
      if ks.eq(k, p.0) {
        HeadOnly(ks, pairs, k);
      }
    }
  }

  lemma HeadOnly<K(!new), V>(ks: Keys<K>, pairs: Chain<K, V>, k: K)
    requires Lawful(ks) && pairs != [] && Distinct(ks, pairs) && ks.eq(k, pairs[0].0)
    ensures Find(ks, pairs[1..], k) == None
  {
    forall i | 0 <= i < |pairs[1..]|
      ensures !ks.eq(k, pairs[1..][i].0)
    {
      assert !ks.eq(pairs[0].0, pairs[i + 1].0);
    }
  }

  lemma {:induction false} EmptyFacts<K(!new), V>(ks: Keys<K>, n: nat, m: nat)
    requires n > 0 && m <= n
    ensures WellFormed<K, V>(ks, Empty(n)) && SizeTo<K, V>(Empty(n), m) == 0
  {
    if m > 0 {
      EmptyFacts<K, V>(ks, n, m - 1);
    }
  }

  /** Relinking every pair into the new array leaves the finite map and its size unchanged. */
  lemma RehashKeepsMap<K(!new), V>(ks: Keys<K>, t: Table<K, V>, n: nat, k: K)
    requires Lawful(ks) && WellFormed(ks, t)
    ensures var u := Rehashed(ks, t, n);
            && WellFormed(ks, u)
            && Lookup(ks, u, k) == Lookup(ks, t, k)
            && Size(u) == Size(t)
            && |u| == if n == 0 then Ideal(Size(t)) else n
  {
    var m := if n == 0 then Ideal(Size(t)) else n;
    if m != |t| {
      EmptyFacts<K, V>(ks, m, m);
      FlattenFind(ks, t, |t|, k);
      FlattenDistinct(ks, t, |t|);
      RelinkIsUnion(ks, Flatten(t, |t|), Empty(m), k);
    }
  }

  lemma RehashKeepsShape<K(!new), V>(ks: Keys<K>, t: Table<K, V>, n: nat)
    requires Lawful(ks) && WellFormed(ks, t)
    ensures WellFormed(ks, Rehashed(ks, t, n)) && Size(Rehashed(ks, t, n)) == Size(t)
  {
    var f: Chain<K, V> := Flatten(t, |t|);
    FlattenLength(t, |t|);
    var m := if n == 0 then Ideal(Size(t)) else n;
    if f == [] {
      EmptyFacts<K, V>(ks, m, m);
    } else {
      RehashKeepsMap(ks, t, n, f[0].0);
    }
  }

  lemma RehashOfEmpty<K(!new), V>(ks: Keys<K>, n: nat, m: nat)
    requires n > 0 && m > 0
    ensures Rehashed<K, V>(ks, Empty(n), m) == Empty(m)
  {
    EmptyFacts<K, V>(ks, n, n);
    FlattenLength<K, V>(Empty(n), n);
    assert |Flatten<K, V>(Empty(n), n)| == 0;
  }

  lemma AfterPutIsUpdate<K(!new), V>(ks: Keys<K>, t: Table<K, V>, key: K, value: V, k: K)
    requires Lawful(ks) && WellFormed(ks, t)
    ensures WellFormed(ks, AfterPut(ks, t, key, value))
    ensures Lookup(ks, AfterPut(ks, t, key, value), k) == if ks.eq(k, key) then Some(value) else Lookup(ks, t, k)
    ensures Size(AfterPut(ks, t, key, value)) == Size(t) + if Lookup(ks, t, key).None? then 1 else 0
    ensures Size(t) <= 15 * |t| ==> Size(AfterPut(ks, t, key, value)) <= 15 * |AfterPut(ks, t, key, value)|
  {
    PutIsUpdate(ks, t, key, value, k);
    RehashKeepsMap(ks, PutPair(ks, t, key, value), 0, k);
  }

  /** The load rule itself: a put changes the number of buckets exactly when it adds a key and there are
      then more than 15 elements a bucket, unless the ideal number is the one there is. */
  lemma PutRehashesWhen<K(!new), V>(ks: Keys<K>, t: Table<K, V>, key: K, value: V)
    requires Lawful(ks) && WellFormed(ks, t)
    ensures |AfterPut(ks, t, key, value)| ==
            if Lookup(ks, t, key).None? && Size(t) + 1 > 15 * |t| then Ideal(Size(t) + 1) else |t|
  {
    hide Lawful;
    hide WellFormed;
    hide Relink;
    PutIsUpdate(ks, t, key, value, key);
    RehashKeepsMap(ks, PutPair(ks, t, key, value), 0, key);
  }

  // ----- runs -----

  datatype Op<K, V> = Put(key: K, value: V) | Remove(gone: K) | RemoveAll | Rehash(n: nat)

  ghost function Step<K, V>(ks: Keys<K>, t: Table<K, V>, op: Op<K, V>): (r: Table<K, V>)
    requires |t| > 0
    ensures |r| > 0
  {
    match op
    case Put(k, v) => AfterPut(ks, t, k, v)
    case Remove(k) => RemovePair(ks, t, k)
    case RemoveAll => Empty(5)
    case Rehash(n) => Rehashed(ks, t, n)
  }

  ghost function Run<K, V>(ks: Keys<K>, buckets: nat, ops: seq<Op<K, V>>): (r: Table<K, V>)
    requires buckets > 0
    ensures |r| > 0
  {
    if ops == [] then Empty(buckets) else Step(ks, Run(ks, buckets, ops[..|ops| - 1]), ops[|ops| - 1])
  }

  /** What a finite map holds for k after the calls: the last one that concerns k decides. */
  function Latest<K, V>(ks: Keys<K>, ops: seq<Op<K, V>>, k: K): Option<V> {
    if ops == [] then None
    else match ops[|ops| - 1]
      case Put(key, v) => if ks.eq(k, key) then Some(v) else Latest(ks, ops[..|ops| - 1], k)
      case Remove(key) => if ks.eq(k, key) then None else Latest(ks, ops[..|ops| - 1], k)
      case RemoveAll => None
      case Rehash(_) => Latest(ks, ops[..|ops| - 1], k)
  }

  /** Every run of calls on a fresh table behaves as a finite map, whatever rehashes happen. */
  lemma {:induction false} RunIsFiniteMap<K(!new), V>(ks: Keys<K>, buckets: nat, ops: seq<Op<K, V>>, k: K)
    requires Lawful(ks) && buckets > 0
    ensures WellFormed(ks, Run(ks, buckets, ops))
    ensures Lookup(ks, Run(ks, buckets, ops), k) == Latest(ks, ops, k)
    decreases |ops|
  {
    if ops == [] {
      EmptyFacts<K, V>(ks, buckets, buckets);
    } else {
      var before := ops[..|ops| - 1];
      RunIsFiniteMap(ks, buckets, before, k);
      StepIsMapStep(ks, Run(ks, buckets, before), ops[|ops| - 1], k);
    }
  }

  lemma StepIsMapStep<K(!new), V>(ks: Keys<K>, t: Table<K, V>, op: Op<K, V>, k: K)
    requires Lawful(ks) && WellFormed(ks, t)
    ensures WellFormed(ks, Step(ks, t, op))
    ensures Lookup(ks, Step(ks, t, op), k) == match op
            case Put(key, v) => if ks.eq(k, key) then Some(v) else Lookup(ks, t, k)
            case Remove(key) => if ks.eq(k, key) then None else Lookup(ks, t, k)
            case RemoveAll => None
            case Rehash(_) => Lookup(ks, t, k)
  {
    match op
    case Put(key, v) => AfterPutIsUpdate(ks, t, key, v, k);
    case Remove(key) => RemoveIsDelete(ks, t, key, k);
    case RemoveAll => EmptyFacts<K, V>(ks, 5, 5);
    case Rehash(n) => RehashKeepsMap(ks, t, n, k);
  }

  /** With the default thresholds there are never more than 15 elements a bucket, unless the
      caller itself asks for a number of buckets. */
  lemma {:induction false} RunKeepsLoad<K(!new), V>(ks: Keys<K>, buckets: nat, ops: seq<Op<K, V>>)
    requires Lawful(ks) && buckets > 0
    requires forall i :: 0 <= i < |ops| && ops[i].Rehash? ==> ops[i].n == 0
    ensures Size(Run(ks, buckets, ops)) <= 15 * |Run(ks, buckets, ops)|
    decreases |ops|
  {
    EmptyFacts<K, V>(ks, buckets, buckets);
    EmptyFacts<K, V>(ks, 5, 5);
    if ops != [] {
      var before := ops[..|ops| - 1];
      RunKeepsLoad(ks, buckets, before);
      var t: Table<K, V> := Run(ks, buckets, before);
      match ops[|ops| - 1]
      case Put(key, v) =>
        RunIsFiniteMap(ks, buckets, before, key);
        AfterPutIsUpdate(ks, t, key, v, key);
      case Remove(key) =>
        RunIsFiniteMap(ks, buckets, before, key);
        RemoveIsDelete(ks, t, key, key);
      case RemoveAll =>
      case Rehash(_) =>
        RehashKeepsLoad(ks, buckets, before);
    }
  }

  lemma RehashKeepsLoad<K(!new), V>(ks: Keys<K>, buckets: nat, ops: seq<Op<K, V>>)
    requires Lawful(ks) && buckets > 0
    ensures var u := Rehashed(ks, Run(ks, buckets, ops), 0); Size(u) <= 15 * |u|
  {
    var t: Table<K, V> := Run(ks, buckets, ops);
    var f: Chain<K, V> := Flatten(t, |t|);
    FlattenLength(t, |t|);
    if f == [] {
      EmptyFacts<K, V>(ks, Ideal(0), Ideal(0));
    } else {
      RunIsFiniteMap(ks, buckets, ops, f[0].0);
      RehashKeepsMap(ks, t, 0, f[0].0);
    }
  }

  /** numOfElements is the size of the map: however the keys present are represented, one
      representative for each class of equal keys, there are that many. */
  lemma SizeCountsKeys<K(!new), V>(ks: Keys<K>, t: Table<K, V>, reps: set<K>)
    requires Lawful(ks) && WellFormed(ks, t)
    requires forall a, b :: a in reps && b in reps && ks.eq(a, b) ==> a == b
    requires forall k :: Lookup(ks, t, k).Some? <==> exists a :: a in reps && ks.eq(k, a)
    ensures Size(t) == |reps|
  {
    var f: Chain<K, V> := Flatten(t, |t|);
    FlattenDistinct(ks, t, |t|);
    forall k
      ensures Find(ks, f, k).Some? <==> exists a :: a in reps && ks.eq(k, a)
    {
      FlattenFind(ks, t, |t|, k);
    }
    CountClasses(ks, f, reps);
    assert |f| == Size(t) by {
      FlattenLength(t, |t|);
    }
  }

  lemma {:induction false} FlattenLength<K, V>(t: Table<K, V>, n: nat)
    requires n <= |t|
    ensures |Flatten(t, n)| == SizeTo(t, n)
  {
    if n > 0 {
      FlattenLength(t, n - 1);
    }
  }

  lemma {:induction false} CountClasses<K(!new), V>(ks: Keys<K>, f: Chain<K, V>, reps: set<K>)
    requires Lawful(ks) && Distinct(ks, f)
    requires forall a, b :: a in reps && b in reps && ks.eq(a, b) ==> a == b
    requires forall k :: Find(ks, f, k).Some? <==> exists a :: a in reps && ks.eq(k, a)
    ensures |f| == |reps|
    decreases |f|
  {
    if f == [] {
      forall a | a in reps
        ensures false
      {
        assert ks.eq(a, a) && (Find(ks, f, a).Some? <==> exists b :: b in reps && ks.eq(a, b));
      }
      assert reps == {};
    } else {
      var p, rest: Chain<K, V> := f[0], f[1..];
      assert f == [p] + rest;
      FindAfterFront(ks, rest, p, p.0);
      var a :| a in reps && ks.eq(p.0, a);
      forall k
        ensures Find(ks, rest, k).Some? <==> exists b :: b in reps - {a} && ks.eq(k, b)
      {
        FindAfterFront(ks, rest, p, k);
        if ks.eq(k, p.0) {
          HeadOnly(ks, f, k);
          assert forall b :: b in reps && ks.eq(k, b) ==> ks.eq(a, b);
        } else {
          assert !ks.eq(k, a);
        }
      }
      CountClasses(ks, rest, reps - {a});
    }
  }
}
