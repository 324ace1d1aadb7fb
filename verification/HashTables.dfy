// The linked form of utils/hashtable.c: an array of buckets whose pairs are chained through
// next pointers and relinked in place by a rehash.
module HashTables {
  import opened BucketCount
  import opened ChainTable

  class Pair<K, V> {
    var key: K
    var value: V
    var next: Pair?<K, V>

    constructor (key: K, value: V, next: Pair?<K, V>)
      ensures this.key == key && this.value == value && this.next == next
    {
      this.key, this.value, this.next := key, value, next;
    }
  }

  /** What follows position i of a chain of nodes. */
  function NodeAt<K, V>(s: seq<Pair<K, V>>, i: nat): Pair?<K, V> {
    if i < |s| then s[i] else null
  }

  /** The nodes of s are chained through next, head first, null last. */
  ghost predicate Linked<K, V>(head: Pair?<K, V>, s: seq<Pair<K, V>>)
    reads s
  {
    head == NodeAt(s, 0) && forall i :: 0 <= i < |s| ==> s[i].next == NodeAt(s, i + 1)
  }

  /** The nodes of s hold the pairs of c. */
  ghost predicate Holds<K, V>(s: seq<Pair<K, V>>, c: Chain<K, V>)
    reads s
  {
    |s| == |c| && forall i :: 0 <= i < |s| ==> (s[i].key, s[i].value) == c[i]
  }

  lemma NothingLinked<K, V>()
    ensures Linked<K, V>(null, []) && Holds<K, V>([], [])
  {
  }

  /** A node linked in front of a chain. */
  lemma LinkedCons<K, V>(pair: Pair<K, V>, s: seq<Pair<K, V>>, c: Chain<K, V>)
    requires Linked(pair.next, s) && Holds(s, c)
    ensures Linked(pair, [pair] + s) && Holds([pair] + s, [(pair.key, pair.value)] + c)
  {
  }

  /** A node unlinked at i: the pointer that led to it now leads to its successor. */
  lemma LinkedWithout<K, V>(head: Pair?<K, V>, s: seq<Pair<K, V>>, c: Chain<K, V>, i: nat)
    requires i < |s| && Holds(s, c)
    requires head == if i == 0 then NodeAt(s, 1) else s[0]
    requires forall x :: 0 <= x < |s| && x != i - 1 ==> s[x].next == NodeAt(s, x + 1)
    requires i > 0 ==> s[i - 1].next == NodeAt(s, i + 1)
    ensures Linked(head, Without(s, i)) && Holds(Without(s, i), Without(c, i))
  {
  }

  class HashTable<K(!new), V> {
    const keys: Keys<K>
    var bucketArray: array<Pair?<K, V>>
    var numOfBuckets: nat
    var numOfElements: nat
    ghost var spine: seq<seq<Pair<K, V>>>
    ghost var nodes: set<Pair<K, V>>
    ghost var table: Table<K, V>

    ghost predicate Shape()
      reads this, bucketArray, nodes
    {
      && 0 < numOfBuckets == bucketArray.Length == |spine| == |table|
      && (forall b, i :: 0 <= b < |spine| && 0 <= i < |spine[b]| ==> spine[b][i] in nodes)
      && (forall b :: 0 <= b < |spine| ==> Linked(bucketArray[b], spine[b]))
      && (forall b :: 0 <= b < |spine| ==> Holds(spine[b], table[b]))
    }

    ghost predicate Valid()
      reads this, bucketArray, nodes
    {
      Shape() && Lawful(keys) && WellFormed(keys, table) && numOfElements == Size(table)
    }

    constructor (keys: Keys<K>, numOfBuckets: nat)
      requires numOfBuckets > 0 && Lawful(keys)
      ensures Valid() && fresh(bucketArray) && nodes == {}
      ensures this.keys == keys && table == Empty(numOfBuckets)
    {
      this.keys := keys;
      bucketArray := new Pair?<K, V>[numOfBuckets](_ => null);
      this.numOfBuckets, numOfElements := numOfBuckets, 0;
      spine := seq(numOfBuckets, i => []);
      nodes := {};
      table := Empty(numOfBuckets);
      new;
      EmptyFacts<K, V>(keys, numOfBuckets, numOfBuckets);
    }

    ghost predicate Apart()
      reads this
    {
      forall b, i, c, j ::
        0 <= b < |spine| && 0 <= i < |spine[b]| && 0 <= c < |spine| && 0 <= j < |spine[c]|
        && spine[b][i] == spine[c][j]
        ==> b == c && i == j
    }

    /** A node sits at one place only: its key tells the bucket, and a chain has no equal keys. */
    lemma NodesApart()
      requires Valid()
      ensures Apart()
    {
      forall b, i, c, j |
        0 <= b < |spine| && 0 <= i < |spine[b]| && 0 <= c < |spine| && 0 <= j < |spine[c]|
        && spine[b][i] == spine[c][j]
        ensures b == c && i == j
      {
        assert Holds(spine[b], table[b]) && Holds(spine[c], table[c]);
        assert table[b][i] == table[c][j];
        assert Bucket(keys, table[b][i].0, |table|) == b && Bucket(keys, table[c][j].0, |table|) == c;
        assert Distinct(keys, table[b]);
      }
    }

    /** The chain walk shared by Put, Get and Remove: stops at the pair with an equal key. */
    method Walk(key: K) returns (h: nat, pair: Pair?<K, V>, previous: Pair?<K, V>, ghost i: nat)
      requires Valid()
      ensures h == Bucket(keys, key, |table|)
      ensures i == IndexIn(keys, table[h], key)
      ensures pair == NodeAt(spine[h], i) && (pair != null <==> i < |table[h]|)
      ensures previous == if i == 0 then null else spine[h][i - 1]
    {
      hide Lawful;
      h := keys.hash(key) % numOfBuckets;
      pair, previous, i := bucketArray[h], null, 0;
      while pair != null && !keys.eq(key, pair.key)
        invariant 0 <= i <= |spine[h]| && pair == NodeAt(spine[h], i)
        invariant previous == if i == 0 then null else spine[h][i - 1]
        invariant forall j :: 0 <= j < i ==> !keys.eq(key, table[h][j].0)
        decreases |spine[h]| - i
      {
        previous, pair, i := pair, pair.next, i + 1;
      }
    }

    method Get(key: K) returns (r: Option<V>)
      requires Valid()
      ensures r == Lookup(keys, table, key)
    {
      var h, pair, previous, i := Walk(key);
      if pair == null {
        r := None;
      } else {
        r := Some(pair.value);
      }
    }

    /** pairMemory and arrayMemory say whether the two allocations succeed. */
    method Put(key: K, value: V, pairMemory: bool, arrayMemory: bool) returns (err: int)
      requires Valid()
      modifies this, bucketArray, nodes
      ensures Valid() && fresh(nodes - old(nodes)) && (bucketArray == old(bucketArray) || fresh(bucketArray))
      ensures err == if pairMemory || Lookup(keys, old(table), key).Some? then 0 else -1
      ensures err != 0 ==> table == old(table)
      ensures err == 0 && arrayMemory ==> table == AfterPut(keys, old(table), key, value)
      ensures err == 0 && !arrayMemory ==> table == PutPair(keys, old(table), key, value)
    {
      hide Lawful;
      hide Bucket;
      hide WellFormed;
      hide Linked;
      hide Holds;
      hide Apart;
      PutIsUpdate(keys, table, key, value, key);
      NodesApart();
      var h, pair, previous, i := Walk(key);
      if pair != null {
        Overwrite(h, pair, i, key, value);
        return 0;
      }
      if !pairMemory {
        return -1;
      }
      LinkFront(h, key, value);
      if numOfElements > 15 * numOfBuckets {
        Rehash(0, arrayMemory);
      }
      return 0;
    }

    method Overwrite(ghost h: nat, pair: Pair<K, V>, ghost i: nat, key: K, value: V)
      requires Shape() && Apart()
      requires h < |spine| && i < |spine[h]| && pair == spine[h][i]
      modifies pair, this`table
      ensures Shape()
      ensures table == old(table)[h := old(table)[h][i := (key, value)]]
    {
      pair.key, pair.value := key, value;
      table := table[h := table[h][i := (key, value)]];
      forall b | 0 <= b < |spine|
        ensures Linked(bucketArray[b], spine[b]) && Holds(spine[b], table[b])
      {
        assert old(Linked(bucketArray[b], spine[b])) && old(Holds(spine[b], table[b]));
        assert b != h ==> pair !in spine[b];
      }
    }

    method LinkFront(h: nat, key: K, value: V)
      requires Shape() && h < |spine|
      modifies this`numOfElements, this`nodes, this`spine, this`table, bucketArray
      ensures Shape() && fresh(nodes - old(nodes))
      ensures numOfElements == old(numOfElements) + 1
      ensures table == old(table)[h := [(key, value)] + old(table)[h]]
    {
      hide Linked;
      hide Holds;
      var newPair := new Pair(key, value, bucketArray[h]);
      LinkedCons(newPair, spine[h], table[h]);
      bucketArray[h] := newPair;
      numOfElements := numOfElements + 1;
      nodes := nodes + {newPair};
      spine := spine[h := [newPair] + spine[h]];
      table := table[h := [(key, value)] + table[h]];
    }

    method Remove(key: K)
      requires Valid()
      modifies this, bucketArray, nodes
      ensures Valid() && nodes == old(nodes) && bucketArray == old(bucketArray)
      ensures table == RemovePair(keys, old(table), key)
    {
      hide Lawful;
      hide Bucket;
      hide WellFormed;
      hide Linked;
      hide Holds;
      hide Apart;
      RemoveIsDelete(keys, table, key, key);
      NodesApart();
      var h, pair, previous, i := Walk(key);
      if pair != null {
        Unlink(h, pair, previous, i);
      }
    }

    method Unlink(h: nat, pair: Pair<K, V>, previous: Pair?<K, V>, ghost i: nat)
      requires Shape() && Apart()
      requires h < |spine| && i < |spine[h]| && pair == spine[h][i] && numOfElements > 0
      requires previous == if i == 0 then null else spine[h][i - 1]
      modifies this`numOfElements, this`spine, this`table, bucketArray, nodes`next
      ensures Shape()
      ensures numOfElements == old(numOfElements) - 1
      ensures table == old(table)[h := Without(old(table)[h], i)]
    {
      hide Linked;
      hide Holds;
      hide Without;
      assert forall b :: 0 <= b < |spine| && b != h ==> previous !in spine[b];
      Bypass(h, pair, previous, i);
      numOfElements := numOfElements - 1;
      spine := spine[h := Without(spine[h], i)];
      table := table[h := Without(table[h], i)];
    }

    /** The pointer that led to the pair at i of chain h is led past it. */
    method Bypass(h: nat, pair: Pair<K, V>, previous: Pair?<K, V>, ghost i: nat)
      requires h < |spine| == |table| == bucketArray.Length && i < |spine[h]|
      requires Linked(bucketArray[h], spine[h]) && Holds(spine[h], table[h])
      requires pair == spine[h][i] && previous == if i == 0 then null else spine[h][i - 1]
      requires forall x, y :: 0 <= x < y < |spine[h]| ==> spine[h][x] != spine[h][y]
      modifies bucketArray, (if previous == null then {} else {previous})`next
      ensures Holds(spine[h], table[h])
      ensures Linked(bucketArray[h], Without(spine[h], i)) && Holds(Without(spine[h], i), Without(table[h], i))
      ensures forall b :: 0 <= b < |spine| && b != h ==> bucketArray[b] == old(bucketArray[b])
    {
      if previous != null {
        previous.next := pair.next;
      } else {
        bucketArray[h] := pair.next;
      }
      LinkedWithout(bucketArray[h], spine[h], table[h], i);
    }

    method RemoveAll(arrayMemory: bool)
      requires Valid()
      modifies this, bucketArray, nodes
      ensures Valid() && nodes == old(nodes) && (bucketArray == old(bucketArray) || fresh(bucketArray))
      ensures table == Empty(if arrayMemory then 5 else |old(table)|)
    {
      hide Shape;
      hide Lawful;
      hide WellFormed;
      hide Rehashed;
      Clear();
      RehashOfEmpty<K, V>(keys, |table|, 5);
      Rehash(5, arrayMemory);
    }

    method Clear()
      requires Valid()
      modifies this`numOfElements, this`spine, this`table, bucketArray
      ensures Valid() && table == Empty(|old(table)|) && |table| > 0
    {
      hide Lawful;
      hide WellFormed;
      NothingLinked<K, V>();
      hide Linked;
      hide Holds;
      UnlinkBuckets();
      spine := seq(numOfBuckets, i => []);
      table := Empty(numOfBuckets);
      numOfElements := 0;
      EmptyFacts<K, V>(keys, numOfBuckets, numOfBuckets);
    }

    /** The loop of HashTableRemoveAll. */
    method UnlinkBuckets()
      requires numOfBuckets == bucketArray.Length
      modifies bucketArray
      ensures forall b :: 0 <= b < bucketArray.Length ==> bucketArray[b] == null
    {
      var i := 0;
      while i < numOfBuckets
        invariant 0 <= i <= numOfBuckets
        invariant forall b :: 0 <= b < i ==> bucketArray[b] == null
      {
        bucketArray[i] := null;
        i := i + 1;
      }
    }

    method Rehash(wanted: nat, arrayMemory: bool)
      requires Valid()
      modifies this, nodes
      ensures Valid() && nodes == old(nodes) && (bucketArray == old(bucketArray) || fresh(bucketArray))
      ensures table == if arrayMemory then Rehashed(keys, old(table), wanted) else old(table)
      ensures numOfElements == old(numOfElements)
    {
      hide Lawful;
      hide WellFormed;
      hide Linked;
      hide Holds;
      hide Relink;
      hide Flatten;
      hide IsIdeal;
      hide Relinked;
      var n := wanted;
      if n == 0 {
        n := CalculateIdealNumOfBuckets(numOfElements);
      }
      if n == numOfBuckets || !arrayMemory {
        return;
      }
      var newBucketArray := new Pair?<K, V>[n](_ => null);
      ghost var newSpine, newTable, moved := RelinkInto(newBucketArray);
      RehashKeepsShape(keys, table, wanted);
      Adopt(newBucketArray, newSpine, newTable, moved);
    }

    /** The relinked buckets become the table. */
    method Adopt(newBucketArray: array<Pair?<K, V>>, ghost newSpine: seq<seq<Pair<K, V>>>,
                 ghost newTable: Table<K, V>, ghost moved: set<Pair<K, V>>)
      requires Relinked(newBucketArray, newSpine, newTable, moved) && newBucketArray.Length > 0
      requires Lawful(keys) && WellFormed(keys, newTable) && numOfElements == Size(newTable)
      modifies this`bucketArray, this`numOfBuckets, this`spine, this`table
      ensures Valid() && bucketArray == newBucketArray && table == newTable
    {
      hide Lawful;
      hide WellFormed;
      hide Linked;
      hide Holds;
      bucketArray := newBucketArray;
      numOfBuckets := newBucketArray.Length;
      spine, table := newSpine, newTable;
    }

    /** The two nested loops of the rehash: each pair is taken off its old chain, in order, and
        linked in front of its new one. */
    method RelinkInto(newBucketArray: array<Pair?<K, V>>)
      returns (ghost newSpine: seq<seq<Pair<K, V>>>, ghost newTable: Table<K, V>, ghost moved: set<Pair<K, V>>)
      requires Valid() && newBucketArray.Length > 0 && newBucketArray != bucketArray
      requires forall b :: 0 <= b < newBucketArray.Length ==> newBucketArray[b] == null
      modifies newBucketArray, nodes`next
      ensures Relinked(newBucketArray, newSpine, newTable, moved)
      ensures newTable == Relink(keys, Flatten(table, |table|), Empty(newBucketArray.Length))
    {
      hide Valid;
      hide Relinked;
      hide Remaining;
      hide Relink;
      hide Flatten;
      hide Apart;
      NodesApart();
      var n := newBucketArray.Length;
      newSpine, newTable, moved := seq(n, i => []), Empty(n), {};
      StartRelinking(newBucketArray, newSpine, newTable);
      var b := 0;
      while b < numOfBuckets
        invariant 0 <= b <= numOfBuckets
        invariant Relinked(newBucketArray, newSpine, newTable, moved) && Remaining(b, 0, moved)
        invariant newTable == Relink(keys, Flatten(table, b), Empty(n))
      {
        newSpine, newTable, moved := RelinkBucket(newBucketArray, b, newSpine, newTable, moved);
        FlattenStep(keys, table, b, Empty(n));
        RemainingNext(b, moved);
        b := b + 1;
      }
    }

    /** The inner loop: one old chain. */
    method RelinkBucket(newBucketArray: array<Pair?<K, V>>, b: nat,
                        ghost newSpine: seq<seq<Pair<K, V>>>, ghost newTable: Table<K, V>, ghost moved: set<Pair<K, V>>)
      returns (ghost newSpine': seq<seq<Pair<K, V>>>, ghost newTable': Table<K, V>, ghost moved': set<Pair<K, V>>)
      requires Apart() && newBucketArray.Length > 0 && newBucketArray != bucketArray
      requires b < |spine| == bucketArray.Length && bucketArray[b] == NodeAt(spine[b], 0)
      requires Relinked(newBucketArray, newSpine, newTable, moved) && Remaining(b, 0, moved)
      modifies newBucketArray, nodes`next
      ensures Relinked(newBucketArray, newSpine', newTable', moved') && Remaining(b, |spine[b]|, moved')
      ensures |newTable| > 0 && b < |table| && newTable' == Relink(keys, table[b], newTable)
    {
      hide Relinked;
      hide Remaining;
      hide Relink;
      hide Apart;
      RemainingSizes(b, 0, moved, newBucketArray, newSpine, newTable);
      newSpine', newTable', moved' := newSpine, newTable, moved;
      var pair := bucketArray[b];
      ghost var i := 0;
      RelinkNone(keys, table[b], newTable);
      while pair != null
        invariant 0 <= i <= |spine[b]| && pair == NodeAt(spine[b], i)
        invariant Relinked(newBucketArray, newSpine', newTable', moved') && Remaining(b, i, moved')
        invariant newTable' == Relink(keys, table[b][..i], newTable)
        decreases |spine[b]| - i
      {
        RemainingAt(b, i, moved');
        var nextPair := pair.next;
        RelinkSnoc(keys, table[b], i, newTable);
        newSpine', newTable', moved' := MovePair(newBucketArray, pair, b, i, newSpine', newTable', moved');
        pair, i := nextPair, i + 1;
      }
      assert table[b][..i] == table[b];
    }

    lemma RemainingSizes(b: nat, i: nat, moved: set<Pair<K, V>>, newBucketArray: array<Pair?<K, V>>,
                         newSpine: seq<seq<Pair<K, V>>>, newTable: Table<K, V>)
      requires Relinked(newBucketArray, newSpine, newTable, moved) && Remaining(b, i, moved) && b < |spine|
      ensures |newTable| == newBucketArray.Length && |spine| == |table| && |spine[b]| == |table[b]|
    {
    }

    lemma StartRelinking(newBucketArray: array<Pair?<K, V>>, newSpine: seq<seq<Pair<K, V>>>, newTable: Table<K, V>)
      requires Valid() && newBucketArray.Length > 0
      requires forall b :: 0 <= b < newBucketArray.Length ==> newBucketArray[b] == null
      requires newSpine == seq(newBucketArray.Length, i => []) && newTable == Empty(newBucketArray.Length)
      ensures Relinked(newBucketArray, newSpine, newTable, {}) && Remaining(0, 0, {})
      ensures Relink(keys, Flatten(table, 0), newTable) == newTable
      ensures numOfBuckets == |spine| == |table| == bucketArray.Length
      ensures forall b :: 0 <= b < |spine| ==> bucketArray[b] == NodeAt(spine[b], 0)
    {
    }

    lemma RemainingAt(b: nat, i: nat, moved: set<Pair<K, V>>)
      requires Remaining(b, i, moved) && b < |spine| && i < |spine[b]|
      ensures spine[b][i] in nodes && spine[b][i].next == NodeAt(spine[b], i + 1)
      ensures (spine[b][i].key, spine[b][i].value) == table[b][i]
    {
    }

    lemma RemainingNext(b: nat, moved: set<Pair<K, V>>)
      requires b < |spine| && Remaining(b, |spine[b]|, moved)
      ensures Remaining(b + 1, 0, moved)
    {
    }

    /** One pair is linked in front of its new chain. */
    method MovePair(newBucketArray: array<Pair?<K, V>>, pair: Pair<K, V>, ghost b: nat, ghost i: nat,
                    ghost newSpine: seq<seq<Pair<K, V>>>, ghost newTable: Table<K, V>, ghost moved: set<Pair<K, V>>)
      returns (ghost newSpine': seq<seq<Pair<K, V>>>, ghost newTable': Table<K, V>, ghost moved': set<Pair<K, V>>)
      requires Apart() && newBucketArray.Length > 0
      requires b < |spine| && i < |spine[b]| && pair == spine[b][i]
      requires Relinked(newBucketArray, newSpine, newTable, moved) && Remaining(b, i, moved)
      modifies newBucketArray, pair`next
      ensures Relinked(newBucketArray, newSpine', newTable', moved') && Remaining(b, i + 1, moved')
      ensures newTable' == PushPair(keys, newTable, table[b][i])
    {
      hide Bucket;
      hide Linked;
      hide Holds;
      var h := Bucket(keys, pair.key, newBucketArray.Length);
      pair.next := newBucketArray[h];
      LinkedCons(pair, newSpine[h], newTable[h]);
      newBucketArray[h] := pair;
      newSpine' := newSpine[h := [pair] + newSpine[h]];
      newTable' := newTable[h := [(pair.key, pair.value)] + newTable[h]];
      moved' := moved + {pair};
    }

    /** The new chains are linked through moved nodes only. */
    ghost predicate Relinked(newBucketArray: array<Pair?<K, V>>, newSpine: seq<seq<Pair<K, V>>>,
                             newTable: Table<K, V>, moved: set<Pair<K, V>>)
      reads this, newBucketArray, nodes, moved
    {
      && moved <= nodes
      && |newSpine| == |newTable| == newBucketArray.Length
      && (forall b, i :: 0 <= b < |newSpine| && 0 <= i < |newSpine[b]| ==> newSpine[b][i] in moved)
      && (forall b :: 0 <= b < |newSpine| ==> Linked(newBucketArray[b], newSpine[b]))
      && (forall b :: 0 <= b < |newSpine| ==> Holds(newSpine[b], newTable[b]))
    }

    /** The nodes from position i of bucket b on are still chained as before. */
    ghost predicate Remaining(b: nat, i: nat, moved: set<Pair<K, V>>)
      reads this, nodes
    {
      && |spine| == |table|
      && (forall c :: 0 <= c < |spine| ==> |spine[c]| == |table[c]|)
      && (forall c, j :: 0 <= c < |spine| && 0 <= j < |spine[c]| ==> spine[c][j] in nodes)
      && (forall c, j :: b <= c < |spine| && 0 <= j < |spine[c]| && (c == b ==> i <= j) ==>
            spine[c][j] !in moved && spine[c][j].next == NodeAt(spine[c], j + 1)
            && (spine[c][j].key, spine[c][j].value) == table[c][j])
    }
  }

  lemma RelinkNone<K, V>(ks: Keys<K>, c: Chain<K, V>, t: Table<K, V>)
    requires |t| > 0
    ensures Relink(ks, c[..0], t) == t
  {
  }

  lemma RelinkSnoc<K, V>(ks: Keys<K>, c: Chain<K, V>, i: nat, t: Table<K, V>)
    requires |t| > 0 && i < |c|
    ensures Relink(ks, c[..i + 1], t) == PushPair(ks, Relink(ks, c[..i], t), c[i])
  {
    assert c[..i + 1] == c[..i] + [c[i]];
    RelinkAppend(ks, c[..i], [c[i]], t);
  }

  lemma FlattenStep<K, V>(ks: Keys<K>, t: Table<K, V>, b: nat, e: Table<K, V>)
    requires |e| > 0 && b < |t|
    ensures Relink(ks, Flatten(t, b + 1), e) == Relink(ks, t[b], Relink(ks, Flatten(t, b), e))
    ensures t[b][..|t[b]|] == t[b]
  {
    RelinkAppend(ks, Flatten(t, b), t[b], e);
  }

  lemma {:induction false} RelinkAppend<K, V>(ks: Keys<K>, a: Chain<K, V>, b: Chain<K, V>, t: Table<K, V>)
    requires |t| > 0
    ensures Relink(ks, a + b, t) == Relink(ks, b, Relink(ks, a, t))
    decreases |a|
  {
    if a == [] {
      assert a + b == b;
    } else {
      assert (a + b)[1..] == a[1..] + b;
      RelinkAppend(ks, a[1..], b, PushPair(ks, t, a[0]));
    }
  }
}
