// The stream table of a whole capture, releases included: every stored key reads as the key of the
// packet being handled, also while that packet's cleanup pass removes entries.
module AliasedRuns {
  import opened ChainTable
  import opened AliasedKeys

  /** A packet of a conversation, or the release of a stream during the pass of the last packet. */
  datatype Event<K> = Packet(key: K) | Release(gone: K)

  /** The key of the last packet. */
  function Current<K>(evs: seq<Event<K>>): Option<K> {
    if evs == [] then None
    else if evs[|evs| - 1].Packet? then Some(evs[|evs| - 1].key)
    else Current(evs[..|evs| - 1])
  }

  // ----- the table as it is, and as it would be with keys stored by value -----

  /** The table after the events; the packet at place i makes slot i if it makes one. */
  ghost function TableAfter<K>(ks: Keys<K>, n: nat, evs: seq<Event<K>>): Table<K, nat>
    requires n > 0
  {
    if evs == [] then Empty(n)
    else
      var before := evs[..|evs| - 1];
      var t := TableAfter(ks, n, before);
      if |t| == 0 then t
      else match evs[|evs| - 1]
        case Packet(k) => Visit<K, nat>(ks, t, k, |evs| - 1).0
        case Release(g) =>
          match Current(before)
          case None => t
          case Some(c) => RemovePair(ks, Reread(t, c), g)
  }

  /** The slot that the packet at place i is answered with. */
  ghost function Answer<K>(ks: Keys<K>, n: nat, evs: seq<Event<K>>, i: nat): nat
    requires n > 0 && i < |evs| && evs[i].Packet?
  {
    var t := TableAfter(ks, n, evs[..i]);
    if |t| == 0 then i else Visit<K, nat>(ks, t, evs[i].key, i).1
  }

  ghost function ValueTable<K>(ks: Keys<K>, n: nat, evs: seq<Event<K>>): Table<K, nat>
    requires n > 0
  {
    if evs == [] then Empty(n)
    else
      var t := ValueTable(ks, n, evs[..|evs| - 1]);
      if |t| == 0 then t
      else match evs[|evs| - 1]
        case Packet(k) => if Lookup(ks, t, k).Some? then t else AfterPut<K, nat>(ks, t, k, |evs| - 1)
        case Release(g) => RemovePair(ks, t, g)
  }

  ghost function ValueAnswer<K>(ks: Keys<K>, n: nat, evs: seq<Event<K>>, i: nat): nat
    requires n > 0 && i < |evs| && evs[i].Packet?
  {
    var t := ValueTable(ks, n, evs[..i]);
    if |t| == 0 then i
    else match Lookup(ks, t, evs[i].key)
      case None => i
      case Some(j) => j
  }

  // ----- what decides the answers -----

  /** A release of the current packet's own stream, in bucket b. */
  ghost predicate OwnRelease<K>(ks: Keys<K>, n: nat, evs: seq<Event<K>>, r: nat, b: nat)
    requires n > 0
  {
    && r < |evs| && evs[r].Release? && Current(evs[..r]).Some?
    && ks.eq(evs[r].gone, Current(evs[..r]).value) && Bucket(ks, evs[r].gone, n) == b
  }

  /** The place whose slot bucket b holds. */
  ghost function Holder<K>(ks: Keys<K>, n: nat, evs: seq<Event<K>>, b: nat): Option<nat>
    requires n > 0
  {
    if evs == [] then None
    else
      var last := |evs| - 1;
      var h := Holder(ks, n, evs[..last], b);
      if evs[last].Packet? && Bucket(ks, evs[last].key, n) == b && h.None? then Some(last)
      else if OwnRelease(ks, n, evs, last, b) then None
      else h
  }

  /** The place whose slot a finite map holds for key k. */
  function Owner<K>(ks: Keys<K>, evs: seq<Event<K>>, k: K): Option<nat> {
    if evs == [] then None
    else
      var last := |evs| - 1;
      var o := Owner(ks, evs[..last], k);
      match evs[last]
      case Packet(key) => if ks.eq(k, key) && o.None? then Some(last) else o
      case Release(g) => if ks.eq(k, g) then None else o
  }

  ghost predicate Holds<K>(ks: Keys<K>, n: nat, evs: seq<Event<K>>, t: Table<K, nat>)
    requires n > 0
  {
    && |t| == n
    && forall b :: 0 <= b < n ==>
         match Holder(ks, n, evs, b)
         case None => t[b] == []
         case Some(h) => |t[b]| == 1 && t[b][0].1 == h
  }

  lemma PacketKeepsHolds<K(!new)>(ks: Keys<K>, n: nat, evs: seq<Event<K>>, t: Table<K, nat>)
    requires Lawful(ks) && n > 0 && evs != [] && evs[|evs| - 1].Packet? && Holds(ks, n, evs[..|evs| - 1], t)
    ensures Holds(ks, n, evs, Visit<K, nat>(ks, t, evs[|evs| - 1].key, |evs| - 1).0)
    ensures Visit<K, nat>(ks, t, evs[|evs| - 1].key, |evs| - 1).1
            == match Holder(ks, n, evs[..|evs| - 1], Bucket(ks, evs[|evs| - 1].key, n))
               case None => |evs| - 1
               case Some(h) => h
  {
    hide Lawful;
    hide Bucket;
    hide Lookup;
    hide AfterPut;
    var cur, v: nat := evs[|evs| - 1].key, |evs| - 1;
    var b, u: Table<K, nat> := Bucket(ks, cur, n), Reread(t, cur);
    LookupFindsHead(ks, t, cur);
    if t[b] == [] {
      MissMakesSingle(ks, u, cur, v);
    }
  }

  lemma ReleaseKeepsHolds<K(!new)>(ks: Keys<K>, n: nat, evs: seq<Event<K>>, t: Table<K, nat>)
    requires Lawful(ks) && n > 0 && evs != [] && evs[|evs| - 1].Release? && Holds(ks, n, evs[..|evs| - 1], t)
    requires Current(evs[..|evs| - 1]).Some?
    ensures Holds(ks, n, evs, RemovePair(ks, Reread(t, Current(evs[..|evs| - 1]).value), evs[|evs| - 1].gone))
  {
    var last := |evs| - 1;
    var cur, gone := Current(evs[..last]).value, evs[last].gone;
    var u: Table<K, nat> := Reread(t, cur);
    var r: Table<K, nat> := RemovePair(ks, u, gone);
    RemovalWorksIff(ks, t, cur, gone);
    var b := Bucket(ks, gone, n);
    hide Bucket;
    if ks.eq(gone, cur) && t[b] != [] {
      assert ks.eq(gone, u[b][0].0);
      assert |r[b]| == 0;
    }
    hide Lawful;
  }

  lemma {:induction false} TableHolds<K(!new)>(ks: Keys<K>, n: nat, evs: seq<Event<K>>)
    requires Lawful(ks) && n > 0
    ensures Holds(ks, n, evs, TableAfter(ks, n, evs))
    decreases |evs|
  {
    if evs != [] {
      hide Holds;
      hide Visit;
      hide RemovePair;
      var before := evs[..|evs| - 1];
      var t: Table<K, nat> := TableAfter(ks, n, before);
      TableHolds(ks, n, before);
      HoldsSize(ks, n, before, t);
      if evs[|evs| - 1].Packet? {
        PacketKeepsHolds(ks, n, evs, t);
      } else if Current(before).Some? {
        ReleaseKeepsHolds(ks, n, evs, t);
      } else {
        IdleRelease(ks, n, evs, t);
      }
    }
  }

  lemma HoldsSize<K>(ks: Keys<K>, n: nat, evs: seq<Event<K>>, t: Table<K, nat>)
    requires n > 0 && Holds(ks, n, evs, t)
    ensures |t| == n
  {
  }

  lemma IdleRelease<K>(ks: Keys<K>, n: nat, evs: seq<Event<K>>, t: Table<K, nat>)
    requires n > 0 && evs != [] && evs[|evs| - 1].Release? && Holds(ks, n, evs[..|evs| - 1], t)
    requires Current(evs[..|evs| - 1]).None?
    ensures Holds(ks, n, evs, t)
  {
  }

  /** Every packet is answered with the slot that its bucket holds, or with a new one. */
  lemma AnswerIsHolder<K(!new)>(ks: Keys<K>, n: nat, evs: seq<Event<K>>, i: nat)
    requires Lawful(ks) && n > 0 && i < |evs| && evs[i].Packet?
    ensures Answer(ks, n, evs, i)
            == match Holder(ks, n, evs[..i], Bucket(ks, evs[i].key, n)) case None => i case Some(h) => h
  {
    hide Visit;
    var upto := evs[..i + 1];
    assert upto[..|upto| - 1] == evs[..i] && upto[|upto| - 1] == evs[i];
    TableHolds(ks, n, evs[..i]);
    PacketKeepsHolds(ks, n, upto, TableAfter(ks, n, evs[..i]));
  }

  lemma {:induction false} ValueTableHolds<K(!new)>(ks: Keys<K>, n: nat, evs: seq<Event<K>>, k: K)
    requires Lawful(ks) && n > 0
    ensures WellFormed(ks, ValueTable(ks, n, evs))
    ensures Lookup(ks, ValueTable(ks, n, evs), k) == Owner(ks, evs, k)
    decreases |evs|
  {
    hide WellFormed;
    hide AfterPut;
    hide RemovePair;
    hide Lookup;
    hide Lawful;
    if evs == [] {
      EmptyLookup(ks, n, k);
    } else {
      var before := evs[..|evs| - 1];
      var t: Table<K, nat> := ValueTable(ks, n, before);
      ValueTableHolds(ks, n, before, k);
      WellFormedSize(ks, t);
      match evs[|evs| - 1]
      case Packet(key) =>
        ValueTableHolds(ks, n, before, key);
        if Lookup(ks, t, key).None? {
          AfterPutIsUpdate<K, nat>(ks, t, key, |evs| - 1, k);
        }
        if ks.eq(k, key) {
          OwnersAgree(ks, before, k, key);
        }
      case Release(g) =>
        RemoveIsDelete(ks, t, g, k);
    }
  }

  lemma EmptyLookup<K(!new)>(ks: Keys<K>, n: nat, k: K)
    requires n > 0
    ensures WellFormed<K, nat>(ks, Empty(n)) && Lookup<K, nat>(ks, Empty(n), k) == None
  {
    EmptyFacts<K, nat>(ks, n, n);
  }

  lemma WellFormedSize<K, V>(ks: Keys<K>, t: Table<K, V>)
    requires WellFormed(ks, t)
    ensures |t| > 0
  {
  }

  lemma {:induction false} OwnersAgree<K(!new)>(ks: Keys<K>, evs: seq<Event<K>>, a: K, b: K)
    requires Lawful(ks) && ks.eq(a, b)
    ensures Owner(ks, evs, a) == Owner(ks, evs, b)
    decreases |evs|
  {
    if evs != [] {
      OwnersAgree(ks, evs[..|evs| - 1], a, b);
    }
  }

  // ----- what the two tables hold -----

  /** Place j is a packet in bucket b. */
  ghost predicate Visits<K>(ks: Keys<K>, n: nat, evs: seq<Event<K>>, j: nat, b: nat)
    requires n > 0
  {
    j < |evs| && evs[j].Packet? && Bucket(ks, evs[j].key, n) == b
  }

  /** Between places j and i the bucket is emptied. */
  ghost predicate Emptied<K>(ks: Keys<K>, n: nat, evs: seq<Event<K>>, j: nat, i: nat, b: nat)
    requires n > 0
  {
    exists r: nat :: j < r < i && OwnRelease(ks, n, evs, r, b)
  }

  /** Between places j and i a stream with key k is released. */
  predicate Released<K>(ks: Keys<K>, evs: seq<Event<K>>, j: nat, i: nat, k: K) {
    exists r: nat :: j < r < i && r < |evs| && evs[r].Release? && ks.eq(k, evs[r].gone)
  }

  lemma OwnReleaseInPrefix<K>(ks: Keys<K>, n: nat, evs: seq<Event<K>>, m: nat, r: nat, b: nat)
    requires n > 0 && r < m <= |evs|
    ensures OwnRelease(ks, n, evs[..m], r, b) <==> OwnRelease(ks, n, evs, r, b)
  {
    assert evs[..m][..r] == evs[..r];
  }

  lemma EmptiedInPrefix<K>(ks: Keys<K>, n: nat, evs: seq<Event<K>>, m: nat, j: nat, i: nat, b: nat)
    requires n > 0 && i <= m <= |evs|
    ensures Emptied(ks, n, evs[..m], j, i, b) <==> Emptied(ks, n, evs, j, i, b)
  {
    hide OwnRelease;
    forall r: nat | j < r < i
      ensures OwnRelease(ks, n, evs[..m], r, b) <==> OwnRelease(ks, n, evs, r, b)
    {
      OwnReleaseInPrefix(ks, n, evs, m, r, b);
    }
  }

  /** The bucket holds the first packet since it was last emptied. */
  lemma {:induction false} HolderMeans<K>(ks: Keys<K>, n: nat, evs: seq<Event<K>>, i: nat, b: nat)
    requires n > 0 && i <= |evs|
    ensures var h := Holder(ks, n, evs[..i], b);
            && (h.Some? ==> h.value < i && Visits(ks, n, evs, h.value, b) && !Emptied(ks, n, evs, h.value, i, b)
                            && Holder(ks, n, evs[..h.value], b) == None)
            && (h.None? ==> forall j: nat :: j < i && Visits(ks, n, evs, j, b) ==> Emptied(ks, n, evs, j, i, b))
    decreases i
  {
    if i > 0 {
      assert evs[..i][..i - 1] == evs[..i - 1];
      HolderMeans(ks, n, evs, i - 1, b);
      OwnReleaseInPrefix(ks, n, evs, i, i - 1, b);
      hide OwnRelease;
      hide Bucket;
      forall j: nat
        ensures Emptied(ks, n, evs, j, i, b) <==> Emptied(ks, n, evs, j, i - 1, b) || (j < i - 1 && OwnRelease(ks, n, evs, i - 1, b))
      {
        if j < i - 1 && OwnRelease(ks, n, evs, i - 1, b) {
          assert j < i - 1 < i;
        }
      }
      OwnIsRelease(ks, n, evs, i - 1, b);
    }
  }

  lemma OwnIsRelease<K>(ks: Keys<K>, n: nat, evs: seq<Event<K>>, r: nat, b: nat)
    requires n > 0
    ensures OwnRelease(ks, n, evs, r, b) ==> r < |evs| && evs[r].Release?
  {
  }

  /** The finite map holds the first packet of the key since the key was last released. */
  lemma {:induction false} OwnerMeans<K(!new)>(ks: Keys<K>, evs: seq<Event<K>>, i: nat, k: K)
    requires i <= |evs|
    ensures var o := Owner(ks, evs[..i], k);
            && (o.Some? ==> o.value < i && evs[o.value].Packet? && ks.eq(k, evs[o.value].key) && !Released(ks, evs, o.value, i, k))
            && (o.None? ==> forall j: nat :: j < i && evs[j].Packet? && ks.eq(k, evs[j].key) ==> Released(ks, evs, j, i, k))
    decreases i
  {
    if i > 0 {
      assert evs[..i][..i - 1] == evs[..i - 1];
      OwnerMeans(ks, evs, i - 1, k);
      forall j: nat
        ensures Released(ks, evs, j, i, k)
            <==> Released(ks, evs, j, i - 1, k) || (j < i - 1 && evs[i - 1].Release? && ks.eq(k, evs[i - 1].gone))
      {
        if j < i - 1 && evs[i - 1].Release? && ks.eq(k, evs[i - 1].gone) {
          assert j < i - 1 < i;
        }
      }
    }
  }

  // ----- when the answers are right -----

  /** The packets at j and i meet in one bucket that is not emptied between them. */
  ghost predicate Meet<K>(ks: Keys<K>, n: nat, evs: seq<Event<K>>, j: nat, i: nat)
    requires n > 0
  {
    && j < i < |evs| && evs[j].Packet? && evs[i].Packet?
    && Bucket(ks, evs[j].key, n) == Bucket(ks, evs[i].key, n)
    && !Emptied(ks, n, evs, j, i, Bucket(ks, evs[i].key, n))
  }

  /** Packets that meet are of one conversation, and its stream was not released between them. */
  ghost predicate Orderly<K(!new)>(ks: Keys<K>, n: nat, evs: seq<Event<K>>)
    requires n > 0
  {
    forall j: nat, i: nat :: Meet(ks, n, evs, j, i) ==>
      ks.eq(evs[i].key, evs[j].key) && !Released(ks, evs, j, i, evs[i].key)
  }

  ghost predicate AnswersRight<K>(ks: Keys<K>, n: nat, evs: seq<Event<K>>)
    requires n > 0
  {
    forall i :: 0 <= i < |evs| && evs[i].Packet? ==> Answer(ks, n, evs, i) == ValueAnswer(ks, n, evs, i)
  }

  lemma ValueAnswerIsOwner<K(!new)>(ks: Keys<K>, n: nat, evs: seq<Event<K>>, i: nat)
    requires Lawful(ks) && n > 0 && i < |evs| && evs[i].Packet?
    ensures ValueAnswer(ks, n, evs, i) == match Owner(ks, evs[..i], evs[i].key) case None => i case Some(j) => j
  {
    ValueTableHolds(ks, n, evs[..i], evs[i].key);
    WellFormedSize(ks, ValueTable(ks, n, evs[..i]));
    hide Lookup;
    hide WellFormed;
  }

  /** An emptied bucket was emptied by a release of the last packet before. */
  lemma {:induction false} CurrentIsPacket<K>(evs: seq<Event<K>>, r: nat) returns (c: nat)
    requires r <= |evs| && Current(evs[..r]).Some?
    ensures c < r && evs[c].Packet? && evs[c].key == Current(evs[..r]).value
    ensures forall x: nat :: c < x < r ==> evs[x].Release?
    decreases r
  {
    assert evs[..r][..r - 1] == evs[..r - 1];
    if evs[r - 1].Packet? {
      c := r - 1;
    } else {
      c := CurrentIsPacket(evs, r - 1);
    }
  }

  /** In an orderly run a bucket that holds nothing is right about each of its keys. */
  lemma EmptyIsRight<K(!new)>(ks: Keys<K>, n: nat, evs: seq<Event<K>>, i: nat, k: K)
    requires Lawful(ks) && n > 0 && i <= |evs| && Orderly(ks, n, evs)
    requires Holder(ks, n, evs[..i], Bucket(ks, k, n)) == None
    ensures Owner(ks, evs[..i], k) == None
  {
    hide Lawful;
    hide OwnRelease;
    hide Emptied;
    hide Released;
    var b := Bucket(ks, k, n);
    HolderMeans(ks, n, evs, i, b);
    OwnerMeans(ks, evs, i, k);
    var o := Owner(ks, evs[..i], k);
    hide Holder;
    hide Owner;
    if o.Some? {
      var j := o.value;
      EqualKeysMeet(ks, k, evs[j].key, n);
      assert Visits(ks, n, evs, j, b);
      EmptierReleases(ks, n, evs, j, i, k);
    }
  }

  lemma EqualKeysMeet<K(!new)>(ks: Keys<K>, a: K, b: K, n: nat)
    requires Lawful(ks) && n > 0 && ks.eq(a, b)
    ensures Bucket(ks, a, n) == Bucket(ks, b, n) && ks.eq(b, a)
  {
  }

  lemma Chained<K(!new)>(ks: Keys<K>, a: K, b: K, c: K)
    requires Lawful(ks) && ks.eq(a, b) && ks.eq(b, c)
    ensures ks.eq(a, c)
  {
  }

  /** In an orderly run the first release that empties the bucket of k after a packet of k releases k. */
  lemma {:induction false} EmptierReleases<K(!new)>(ks: Keys<K>, n: nat, evs: seq<Event<K>>, j: nat, i: nat, k: K)
    requires Lawful(ks) && n > 0 && j < i <= |evs| && Orderly(ks, n, evs)
    requires evs[j].Packet? && ks.eq(k, evs[j].key) && Emptied(ks, n, evs, j, i, Bucket(ks, k, n))
    ensures Released(ks, evs, j, i, k)
    decreases i
  {
    hide Lawful;
    hide Bucket;
    hide Released;
    var b := Bucket(ks, k, n);
    var r: nat :| j < r < i && OwnRelease(ks, n, evs, r, b);
    if Emptied(ks, n, evs, j, r, b) {
      hide Orderly;
      EmptierReleases(ks, n, evs, j, r, k);
      ReleasedWithin(ks, evs, j, r, j, i, k);
    } else {
      var c := CurrentIsPacket(evs, r);
      var g := evs[r].gone;
      EqualKeysMeet(ks, k, evs[j].key, n);
      EqualKeysMeet(ks, g, evs[c].key, n);
      assert c >= j;
      if c > j {
        EmptiedWithin(ks, n, evs, j, c, r, b);
        assert Meet(ks, n, evs, j, c);
        EqualKeysMeet(ks, evs[c].key, evs[j].key, n);
        Chained(ks, k, evs[j].key, evs[c].key);
      }
      Chained(ks, k, evs[c].key, g);
      ReleasedAt(ks, evs, j, r, i, k);
    }
  }

  lemma ReleasedAt<K>(ks: Keys<K>, evs: seq<Event<K>>, j: nat, r: nat, i: nat, k: K)
    requires j < r < i <= |evs|
    ensures evs[r].Release? && ks.eq(k, evs[r].gone) ==> Released(ks, evs, j, i, k)
  {
  }

  lemma ReleasedWithin<K>(ks: Keys<K>, evs: seq<Event<K>>, j: nat, r: nat, h: nat, i: nat, k: K)
    requires h <= j && r <= i
    ensures Released(ks, evs, j, r, k) ==> Released(ks, evs, h, i, k)
  {
    if Released(ks, evs, j, r, k) {
      var x: nat :| j < x < r && x < |evs| && evs[x].Release? && ks.eq(k, evs[x].gone);
      assert h < x < i;
    }
  }

  lemma EmptiedWithin<K>(ks: Keys<K>, n: nat, evs: seq<Event<K>>, j: nat, c: nat, r: nat, b: nat)
    requires n > 0 && c <= r
    ensures Emptied(ks, n, evs, j, c, b) ==> Emptied(ks, n, evs, j, r, b)
  {
    hide OwnRelease;
    if Emptied(ks, n, evs, j, c, b) {
      var x: nat :| j < x < c && OwnRelease(ks, n, evs, x, b);
      assert j < x < r;
    }
  }

  /** In an orderly run each packet is answered right. */
  lemma OrderlyIsRight<K(!new)>(ks: Keys<K>, n: nat, evs: seq<Event<K>>, i: nat)
    requires Lawful(ks) && n > 0 && i < |evs| && evs[i].Packet? && Orderly(ks, n, evs)
    ensures Answer(ks, n, evs, i) == ValueAnswer(ks, n, evs, i)
  {
    hide Lawful;
    hide Bucket;
    hide Answer;
    hide ValueAnswer;
    hide Emptied;
    hide Released;
    var k := evs[i].key;
    var b := Bucket(ks, k, n);
    AnswerIsHolder(ks, n, evs, i);
    ValueAnswerIsOwner(ks, n, evs, i);
    HolderMeans(ks, n, evs, i, b);
    var holder := Holder(ks, n, evs[..i], b);
    if holder.None? {
      EmptyIsRight(ks, n, evs, i, k);
    } else {
      var h := holder.value;
      assert Meet(ks, n, evs, h, i);
      EmptyIsRight(ks, n, evs, h, evs[h].key);
      OwnersAgree(ks, evs[..h], k, evs[h].key);
      hide Orderly;
      hide Holder;
      OwnerStays(ks, evs, h, i, k);
    }
  }

  /** A key that is taken over at h and not released stays with h. */
  lemma {:induction false} OwnerStays<K(!new)>(ks: Keys<K>, evs: seq<Event<K>>, h: nat, i: nat, k: K)
    requires h < i <= |evs| && evs[h].Packet? && ks.eq(k, evs[h].key) && Owner(ks, evs[..h], k) == None
    requires !Released(ks, evs, h, i, k)
    ensures Owner(ks, evs[..i], k) == Some(h)
    decreases i
  {
    assert evs[..i][..i - 1] == evs[..i - 1];
    if h < i - 1 {
      ReleasedWithin(ks, evs, h, i - 1, h, i, k);
      OwnerStays(ks, evs, h, i - 1, k);
      ReleasedAt(ks, evs, h, i - 1, i, k);
    }
  }

  /** Packets that meet are answered with one and the same slot, made at or before the first of them. */
  lemma MeetersShare<K(!new)>(ks: Keys<K>, n: nat, evs: seq<Event<K>>, j: nat, i: nat) returns (h: nat)
    requires Lawful(ks) && n > 0 && Meet(ks, n, evs, j, i)
    ensures h <= j && evs[h].Packet? && Answer(ks, n, evs, i) == h && Answer(ks, n, evs, j) == h
  {
    hide Lawful;
    hide Bucket;
    hide Answer;
    hide OwnRelease;
    var b := Bucket(ks, evs[i].key, n);
    AnswerIsHolder(ks, n, evs, i);
    AnswerIsHolder(ks, n, evs, j);
    HolderMeans(ks, n, evs, i, b);
    HolderMeans(ks, n, evs, j, b);
    var at_i, at_j := Holder(ks, n, evs[..i], b), Holder(ks, n, evs[..j], b);
    assert Visits(ks, n, evs, j, b);
    h := at_i.value;
    HolderMeans(ks, n, evs, h, b);
    hide Holder;
    EmptiedWithin(ks, n, evs, j, h, i, b);
    if h < j {
      EmptiedWithin(ks, n, evs, h, j, i, b);
      OneHolder(ks, n, evs, at_j.value, h, j, b);
    }
  }

  lemma OneHolder<K>(ks: Keys<K>, n: nat, evs: seq<Event<K>>, x: nat, y: nat, i: nat, b: nat)
    requires n > 0 && x < i <= |evs| && y < i && Visits(ks, n, evs, x, b) && Visits(ks, n, evs, y, b)
    requires !Emptied(ks, n, evs, x, i, b) && !Emptied(ks, n, evs, y, i, b)
    requires Holder(ks, n, evs[..x], b) == None == Holder(ks, n, evs[..y], b)
    ensures x == y
  {
    hide Emptied;
    hide Visits;
    HolderMeans(ks, n, evs, x, b);
    HolderMeans(ks, n, evs, y, b);
    hide Holder;
    EmptiedWithin(ks, n, evs, x, y, i, b);
    EmptiedWithin(ks, n, evs, y, x, i, b);
  }

  lemma RightIsOrderly<K(!new)>(ks: Keys<K>, n: nat, evs: seq<Event<K>>, j: nat, i: nat)
    requires Lawful(ks) && n > 0 && AnswersRight(ks, n, evs) && Meet(ks, n, evs, j, i)
    ensures ks.eq(evs[i].key, evs[j].key) && !Released(ks, evs, j, i, evs[i].key)
  {
    hide Lawful;
    hide Bucket;
    hide Answer;
    hide ValueAnswer;
    hide Emptied;
    var h := MeetersShare(ks, n, evs, j, i);
    ValueAnswerIsOwner(ks, n, evs, i);
    ValueAnswerIsOwner(ks, n, evs, j);
    OwnerMeans(ks, evs, i, evs[i].key);
    OwnerMeans(ks, evs, j, evs[j].key);
    hide Owner;
    if h < j {
      EqualKeysMeet(ks, evs[j].key, evs[h].key, n);
      Chained(ks, evs[i].key, evs[h].key, evs[j].key);
    }
    ReleasedWithin(ks, evs, j, i, h, i, evs[i].key);
  }

  /** Over a whole capture every packet is answered as a table with keys stored by value answers it,
      exactly when packets that meet in a bucket are of one conversation whose stream was not released
      between them: by the pass of another conversation's packet, the only kind that leaves the entry. */
  lemma AnswersRightIffOrderly<K(!new)>(ks: Keys<K>, n: nat, evs: seq<Event<K>>)
    requires Lawful(ks) && n > 0
    ensures AnswersRight(ks, n, evs) <==> Orderly(ks, n, evs)
  {
    hide Lawful;
    hide Meet;
    hide Released;
    hide Answer;
    hide ValueAnswer;
    if AnswersRight(ks, n, evs) {
      forall j: nat, i: nat | Meet(ks, n, evs, j, i)
        ensures i < |evs| && j < i && evs[i].Packet? && evs[j].Packet?
        ensures ks.eq(evs[i].key, evs[j].key) && !Released(ks, evs, j, i, evs[i].key)
      {
        MeetersArePackets(ks, n, evs, j, i);
        RightIsOrderly(ks, n, evs, j, i);
      }
    }
    if Orderly(ks, n, evs) {
      forall i | 0 <= i < |evs| && evs[i].Packet?
        ensures Answer(ks, n, evs, i) == ValueAnswer(ks, n, evs, i)
      {
        OrderlyIsRight(ks, n, evs, i);
      }
    }
  }

  lemma MeetersArePackets<K>(ks: Keys<K>, n: nat, evs: seq<Event<K>>, j: nat, i: nat)
    requires n > 0 && Meet(ks, n, evs, j, i)
    ensures j < i < |evs| && evs[i].Packet? && evs[j].Packet?
  {
  }
}
