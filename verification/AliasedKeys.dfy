// The stream table as the program really keeps it: shm_stream_alloc stores the address of on_packet's
// local key, so while a packet is handled every stored key reads as the key of that packet.
module AliasedKeys {
  import opened ChainTable
  import opened StreamKeys

  /** The table as it reads while the packet with key cur is handled. */
  function Reread<K, V>(t: Table<K, V>, cur: K): (u: Table<K, V>)
    ensures |u| == |t| && forall b :: 0 <= b < |t| ==>
              |u[b]| == |t[b]| && forall i :: 0 <= i < |t[b]| ==> u[b][i] == (cur, t[b][i].1)
  {
    seq(|t|, b requires 0 <= b < |t| => seq(|t[b]|, i requires 0 <= i < |t[b]| => (cur, t[b][i].1)))
  }

  // ----- one call -----

  /** A lookup with the current key returns the head of its bucket, whoever was put there. */
  lemma LookupFindsHead<K(!new), V>(ks: Keys<K>, t: Table<K, V>, cur: K)
    requires Lawful(ks) && |t| > 0
    ensures var c := t[Bucket(ks, cur, |t|)];
            Lookup(ks, Reread(t, cur), cur) == if c == [] then None else Some(c[0].1)
  {
    var u: Table<K, V> := Reread(t, cur);
    var c := u[Bucket(ks, cur, |t|)];
    if c != [] {
      assert ks.eq(cur, c[0].0);
    }
  }

  /** A removal does something exactly when it is for the current key and the bucket is not empty. */
  lemma RemovalWorksIff<K(!new), V>(ks: Keys<K>, t: Table<K, V>, cur: K, gone: K)
    requires Lawful(ks) && |t| > 0
    ensures RemovePair(ks, Reread(t, cur), gone) != Reread(t, cur)
            <==> ks.eq(gone, cur) && t[Bucket(ks, gone, |t|)] != []
  {
    var u: Table<K, V> := Reread(t, cur);
    var b := Bucket(ks, gone, |t|);
    var i := IndexIn(ks, u[b], gone);
    if i < |u[b]| {
      assert |RemovePair(ks, u, gone)[b]| == |u[b]| - 1;
    } else if u[b] != [] {
      assert !ks.eq(gone, u[b][0].0);
    }
  }

  function RemoveEach<K, V>(ks: Keys<K>, t: Table<K, V>, gone: seq<K>): (r: Table<K, V>)
    requires |t| > 0
    ensures |r| == |t|
  {
    if gone == [] then t else RemovePair(ks, RemoveEach(ks, t, gone[..|gone| - 1]), gone[|gone| - 1])
  }

  /** A cleanup pass started by the packet with key cur leaves the entry of every stream it releases,
      the packet's own stream apart. */
  lemma {:induction false} PassLeavesEntries<K(!new), V>(ks: Keys<K>, t: Table<K, V>, cur: K, gone: seq<K>)
    requires Lawful(ks) && |t| > 0
    requires forall i :: 0 <= i < |gone| ==> !ks.eq(gone[i], cur)
    ensures RemoveEach(ks, Reread(t, cur), gone) == Reread(t, cur)
    decreases |gone|
  {
    if gone != [] {
      PassLeavesEntries(ks, t, cur, gone[..|gone| - 1]);
      RemovalWorksIff(ks, t, cur, gone[|gone| - 1]);
    }
  }

  /** After a stream with key gone was released during the packet with key cur, its next packet finds
      no entry exactly when there was none, or when it was released by its own packet and was alone. */
  lemma ForgottenIff<K(!new), V>(ks: Keys<K>, t: Table<K, V>, cur: K, gone: K)
    requires Lawful(ks) && |t| > 0
    ensures var after := RemovePair(ks, Reread(t, cur), gone);
            var c := t[Bucket(ks, gone, |t|)];
            Lookup(ks, Reread(after, gone), gone).None? <==> c == [] || (ks.eq(gone, cur) && |c| == 1)
  {
    var u: Table<K, V> := Reread(t, cur);
    var after: Table<K, V> := RemovePair(ks, u, gone);
    var b := Bucket(ks, gone, |t|);
    RemovalWorksIff(ks, t, cur, gone);
    LookupFindsHead(ks, after, gone);
    if ks.eq(gone, cur) && t[b] != [] {
      assert ks.eq(gone, u[b][0].0);
      assert |after[b]| == |t[b]| - 1;
    }
  }

  // ----- runs of lookups, each making an entry on a miss -----

  /** The table and the answer of one packet: v is the slot that is made if none is found. */
  ghost function Visit<K, V>(ks: Keys<K>, t: Table<K, V>, cur: K, v: V): (r: (Table<K, V>, V))
    requires |t| > 0
  {
    var u := Reread(t, cur);
    match Lookup(ks, u, cur)
    case Some(x) => (u, x)
    case None => (AfterPut(ks, u, cur, v), v)
  }

  /** The table after a packet for each of the keys; the i-th makes slot i. */
  ghost function TableAfter<K>(ks: Keys<K>, n: nat, keys: seq<K>): Table<K, nat>
    requires n > 0
  {
    if keys == [] then Empty(n)
    else
      var t := TableAfter(ks, n, keys[..|keys| - 1]);
      if |t| == 0 then t else Visit<K, nat>(ks, t, keys[|keys| - 1], |keys| - 1).0
  }

  /** The slot that packet i is answered with. */
  ghost function Answer<K>(ks: Keys<K>, n: nat, keys: seq<K>, i: nat): nat
    requires n > 0 && i < |keys|
  {
    var t := TableAfter(ks, n, keys[..i]);
    if |t| == 0 then i else Visit<K, nat>(ks, t, keys[i], i).1
  }

  /** The first key that belongs to bucket b, or the number of keys. */
  function FirstIn<K>(ks: Keys<K>, n: nat, keys: seq<K>, b: nat): (j: nat)
    requires n > 0
    ensures j <= |keys| && (j < |keys| ==> Bucket(ks, keys[j], n) == b)
    ensures forall i :: 0 <= i < j ==> Bucket(ks, keys[i], n) != b
  {
    if keys == [] then 0
    else
      var j := FirstIn(ks, n, keys[..|keys| - 1], b);
      if j < |keys| - 1 || Bucket(ks, keys[|keys| - 1], n) == b then j else |keys|
  }

  /** Each bucket holds at most the slot made by the first key that belongs to it. */
  ghost predicate Singles<K>(ks: Keys<K>, n: nat, keys: seq<K>, t: Table<K, nat>)
    requires n > 0
  {
    && |t| == n
    && forall b :: 0 <= b < n ==>
         var j := FirstIn(ks, n, keys, b);
         if j == |keys| then t[b] == [] else |t[b]| == 1 && t[b][0].1 == j
  }

  lemma {:induction false} SinglesAreFew<K>(t: Table<K, nat>, m: nat)
    requires m <= |t| && forall b :: 0 <= b < |t| ==> |t[b]| <= 1
    ensures SizeTo(t, m) <= m
  {
    if m > 0 {
      SinglesAreFew(t, m - 1);
    }
  }

  /** A miss makes an entry alone in its bucket, and no rehash. */
  lemma MissMakesSingle<K(!new)>(ks: Keys<K>, u: Table<K, nat>, cur: K, v: nat)
    requires |u| > 0 && u[Bucket(ks, cur, |u|)] == [] && forall b :: 0 <= b < |u| ==> |u[b]| <= 1
    ensures AfterPut(ks, u, cur, v) == u[Bucket(ks, cur, |u|) := [(cur, v)]]
  {
    hide Bucket;
    var b := Bucket(ks, cur, |u|);
    var put: Table<K, nat> := PutPair(ks, u, cur, v);
    assert [(cur, v)] + u[b] == [(cur, v)];
    assert put == u[b := [(cur, v)]];
    SinglesAreFew(put, |put|);
  }

  lemma VisitKeepsSingles<K(!new)>(ks: Keys<K>, n: nat, keys: seq<K>, t: Table<K, nat>)
    requires Lawful(ks) && n > 0 && keys != [] && Singles(ks, n, keys[..|keys| - 1], t)
    ensures Singles(ks, n, keys, Visit<K, nat>(ks, t, keys[|keys| - 1], |keys| - 1).0)
    ensures Visit<K, nat>(ks, t, keys[|keys| - 1], |keys| - 1).1 == FirstIn(ks, n, keys, Bucket(ks, keys[|keys| - 1], n))
  {
    hide Lawful;
    hide Bucket;
    hide Lookup;
    hide AfterPut;
    var cur, v: nat := keys[|keys| - 1], |keys| - 1;
    var b, u: Table<K, nat> := Bucket(ks, cur, n), Reread(t, cur);
    LookupFindsHead(ks, t, cur);
    if t[b] == [] {
      MissMakesSingle(ks, u, cur, v);
    }
  }

  lemma {:induction false} TableHasSingles<K(!new)>(ks: Keys<K>, n: nat, keys: seq<K>)
    requires Lawful(ks) && n > 0
    ensures Singles(ks, n, keys, TableAfter(ks, n, keys))
    decreases |keys|
  {
    if keys != [] {
      hide Visit;
      TableHasSingles(ks, n, keys[..|keys| - 1]);
      VisitKeepsSingles(ks, n, keys, TableAfter(ks, n, keys[..|keys| - 1]));
    }
  }

  /** Every packet is answered with the slot made by the first packet of the run in its bucket. */
  lemma AnswerIsFirst<K(!new)>(ks: Keys<K>, n: nat, keys: seq<K>, i: nat)
    requires Lawful(ks) && n > 0 && i < |keys|
    ensures var j := Answer(ks, n, keys, i);
            j <= i && Bucket(ks, keys[j], n) == Bucket(ks, keys[i], n)
            && forall k :: 0 <= k < j ==> Bucket(ks, keys[k], n) != Bucket(ks, keys[i], n)
  {
    hide Visit;
    var upto := keys[..i + 1];
    assert upto[..i] == keys[..i];
    TableHasSingles(ks, n, keys[..i]);
    VisitKeepsSingles(ks, n, upto, TableAfter(ks, n, keys[..i]));
    assert upto[|upto| - 1] == keys[i];
    var j := FirstIn(ks, n, upto, Bucket(ks, keys[i], n));
    assert j <= i;
    assert forall k :: 0 <= k <= i ==> upto[k] == keys[k];
  }

  /** Every packet of the run is answered with a slot made for its own key exactly when no two
      different keys of the run fall in one bucket. */
  lemma AnswersRightIff<K(!new)>(ks: Keys<K>, n: nat, keys: seq<K>)
    requires Lawful(ks) && n > 0
    ensures (forall i :: 0 <= i < |keys| ==> Answer(ks, n, keys, i) < |keys| && ks.eq(keys[Answer(ks, n, keys, i)], keys[i]))
            <==> (forall i, j :: 0 <= i < |keys| && 0 <= j < |keys| && Bucket(ks, keys[i], n) == Bucket(ks, keys[j], n) ==>
                    ks.eq(keys[i], keys[j]))
  {
    hide Lawful;
    hide Bucket;
    hide Answer;
    if forall i :: 0 <= i < |keys| ==> Answer(ks, n, keys, i) < |keys| && ks.eq(keys[Answer(ks, n, keys, i)], keys[i]) {
      forall i, j | 0 <= i < |keys| && 0 <= j < |keys| && Bucket(ks, keys[i], n) == Bucket(ks, keys[j], n)
        ensures ks.eq(keys[i], keys[j])
      {
        AnswerIsFirst(ks, n, keys, i);
        AnswerIsFirst(ks, n, keys, j);
        assert Answer(ks, n, keys, i) == Answer(ks, n, keys, j);
        ThroughCommon(ks, keys[Answer(ks, n, keys, i)], keys[i], keys[j]);
      }
    } else {
      var i :| 0 <= i < |keys| && !(Answer(ks, n, keys, i) < |keys| && ks.eq(keys[Answer(ks, n, keys, i)], keys[i]));
      AnswerIsFirst(ks, n, keys, i);
    }
  }

  lemma ThroughCommon<K(!new)>(ks: Keys<K>, c: K, a: K, b: K)
    requires Lawful(ks) && ks.eq(c, a) && ks.eq(c, b)
    ensures ks.eq(a, b)
  {
  }

  // ----- a failing family -----

  /** The protocol does not enter the hash, so a UDP conversation between two endpoints that already
      have a TCP one is answered with the TCP stream, whatever the number of buckets. */
  lemma UdpGetsTcpStream(a: Endpoint, b: Endpoint, n: nat)
    requires n > 0
    ensures var tcp, udp := InitV4(6, a, b).0, InitV4(17, a, b).0;
            tcp != udp && Answer(StreamKeyOps(), n, [tcp, udp], 1) == 0
  {
    hide Mix;
    var tcp, udp := InitV4(6, a, b).0, InitV4(17, a, b).0;
    StreamKeyOpsLawful();
    SameHash(tcp, udp);
    AnswerIsFirst(StreamKeyOps(), n, [tcp, udp], 1);
    hide Answer;
    hide Lawful;
    hide Mix;
    var j := Answer(StreamKeyOps(), n, [tcp, udp], 1);
    assert Bucket(StreamKeyOps(), [tcp, udp][0], n) == Bucket(StreamKeyOps(), [tcp, udp][1], n);
  }

  lemma SameHash(k1: StreamKey, k2: StreamKey)
    requires k2 == k1.(ipproto := k2.ipproto)
    ensures Hash(k1) == Hash(k2)
  {
    hide Mix;
  }
}
