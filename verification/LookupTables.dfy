// The two lookup tables of common/shmdata.c as finite maps: chains of pairs on one side, the maps of
// the capture state machine on the other.
module LookupTables {
  import opened ChainTable
  import opened StreamKeys

  /** Keys that are compared by their bytes. */
  ghost predicate Plain<K(!new)>(ks: Keys<K>) {
    forall a, b :: ks.eq(a, b) <==> a == b
  }

  /** addr_key_t of an IPv4 address: the other three words are zero and do not enter the hash. */
  function AddrKeyOps(): Keys<Addr> {
    Keys((a: Addr, b: Addr) => a == b, (a: Addr) => a)
  }

  lemma PlainIsLawful<K(!new)>(ks: Keys<K>)
    requires Plain(ks)
    ensures Lawful(ks)
  {
  }

  lemma KeyOpsArePlain()
    ensures Plain(StreamKeyOps()) && Plain(AddrKeyOps())
  {
    hide Mix;
  }

  function Entry<K, V>(m: map<K, V>, k: K): Option<V> {
    if k in m then Some(m[k]) else None
  }

  /** The chains hold exactly the entries of the map. */
  ghost predicate Represents<K(!new), V>(ks: Keys<K>, t: Table<K, V>, m: map<K, V>) {
    WellFormed(ks, t) && forall k :: Lookup(ks, t, k) == Entry(m, k)
  }

  lemma EmptyRepresents<K(!new), V>(ks: Keys<K>, n: nat)
    requires n > 0
    ensures Represents<K, V>(ks, Empty(n), map[])
  {
    EmptyFacts<K, V>(ks, n, n);
  }

  lemma PutRepresents<K(!new), V>(ks: Keys<K>, t: Table<K, V>, m: map<K, V>, key: K, value: V)
    requires Plain(ks) && Represents(ks, t, m)
    ensures Represents(ks, AfterPut(ks, t, key, value), m[key := value])
  {
    PlainIsLawful(ks);
    hide Lawful;
    hide AfterPut;
    hide WellFormed;
    hide Lookup;
    AfterPutIsUpdate(ks, t, key, value, key);
    forall k
      ensures Lookup(ks, AfterPut(ks, t, key, value), k) == Entry(m[key := value], k)
    {
      AfterPutIsUpdate(ks, t, key, value, k);
    }
  }

  lemma RemoveRepresents<K(!new), V>(ks: Keys<K>, t: Table<K, V>, m: map<K, V>, key: K)
    requires Plain(ks) && Represents(ks, t, m)
    ensures Represents(ks, RemovePair(ks, t, key), m - {key})
  {
    PlainIsLawful(ks);
    hide Lawful;
    hide RemovePair;
    hide WellFormed;
    hide Lookup;
    RemoveIsDelete(ks, t, key, key);
    forall k
      ensures Lookup(ks, RemovePair(ks, t, key), k) == Entry(m - {key}, k)
    {
      RemoveIsDelete(ks, t, key, k);
    }
  }

  /** The element count of the table is the size of the map. */
  lemma SizeRepresents<K(!new), V>(ks: Keys<K>, t: Table<K, V>, m: map<K, V>)
    requires Plain(ks) && Represents(ks, t, m)
    ensures Size(t) == |m|
  {
    PlainIsLawful(ks);
    forall k
      ensures Lookup(ks, t, k).Some? <==> exists a :: a in m.Keys && ks.eq(k, a)
    {
      if k in m.Keys {
        assert ks.eq(k, k);
      }
    }
    SizeCountsKeys(ks, t, m.Keys);
    assert |m.Keys| == |m|;
  }
}
