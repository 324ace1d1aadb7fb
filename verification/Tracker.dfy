// The capture process in its own form: tables, lists with cursors and counters updated in
// place, tied step by step to the functions of Lifecycle and Capture.
module Tracker {
  import opened Words
  import opened SlotPool
  import opened StreamKeys
  import opened Structs
  import opened Ports
  import opened Lifecycle
  import opened Capture
  import Chains = ChainTable
  import Hashed = HashTables
  import Lookup = LookupTables
  import Tenancy

  /** The hash table holds exactly the entries of the map. */
  ghost predicate Holding<K(!new), V>(t: Hashed.HashTable<K, V>, ks: Chains.Keys<K>, m: map<K, V>)
    reads t, t.bucketArray, t.nodes
  {
    t.Valid() && t.keys == ks && Lookup.Represents(ks, t.table, m)
  }

  method NewLookup<K(!new), V>(ks: Chains.Keys<K>, n: nat) returns (t: Hashed.HashTable<K, V>)
    requires Lookup.Plain(ks) && n > 0
    ensures Holding(t, ks, map[]) && fresh(t) && fresh(t.bucketArray) && fresh(t.nodes)
  {
    Lookup.PlainIsLawful(ks);
    Lookup.EmptyRepresents<K, V>(ks, n);
    t := new Hashed.HashTable(ks, n);
  }

  /** The statics of shmdata.c, cleanup.c and main.c, with the two lookup tables as linked hash tables.
      The pools are the values whose updates SlotPool.ManagedArray is proved to make in place; they
      stay values here because releases that are not anchored are covered too. */
  class CaptureProcess {
    const streams: array<StreamInfo>
    const addrs: array<AddrInfo>
    const mainEntries: array<nat>
    const waitEntries: array<nat>
    const flows: array<Flow>
    const isLan: Addr -> bool
    var mainI: nat
    var waitI: nat
    var streamPool: Pool
    var lanPool: Pool
    var wanPool: Pool
    const streamTable: Hashed.HashTable<StreamKey, nat>
    const addrTable: Hashed.HashTable<Addr, nat>
    ghost var streamMap: map<StreamKey, nat>
    ghost var addrMap: map<Addr, nat>
    var lastSec: nat
    var nextStream: nat
    var nextAddr: nat
    ghost var released: set<nat>
    ghost var gone: set<Addr>
    ghost var refused: Flow

    ghost predicate Valid()
      reads this
    {
      && mainEntries.Length == MAIN_ROOM && waitEntries.Length == WAIT_ROOM && mainEntries != waitEntries
      && mainI <= MAIN_ROOM && waitI <= WAIT_ROOM && flows.Length == 6
    }

    /** The hash tables hold the two lookup maps. */
    ghost predicate Lookups()
      reads this`streamMap, this`addrMap, streamTable, streamTable.bucketArray, streamTable.nodes
      reads addrTable, addrTable.bucketArray, addrTable.nodes
    {
      StreamsKept() && AddrsKept()
    }

    ghost predicate StreamsKept()
      reads this`streamMap, streamTable, streamTable.bucketArray, streamTable.nodes
    {
      Holding(streamTable, StreamKeyOps(), streamMap)
    }

    ghost predicate AddrsKept()
      reads this`addrMap, addrTable, addrTable.bucketArray, addrTable.nodes
    {
      Holding(addrTable, Lookup.AddrKeyOps(), addrMap)
    }

    ghost function View(): State
      requires Valid()
      reads this, streams, addrs, mainEntries, waitEntries, flows
    {
      State(streams[..], addrs[..], streamPool, lanPool, wanPool, streamMap, addrMap,
            mainEntries[..mainI], waitEntries[..waitI], flows[..], lastSec, nextStream, nextAddr,
            released, gone, refused)
    }

    /** The process before its first packet: zeroed tables and empty pools. */
    constructor (isLan: Addr -> bool)
      ensures Valid() && Lookups() && View() == InitialState() && this.isLan == isLan
      ensures fresh(streams) && fresh(addrs) && fresh(mainEntries) && fresh(waitEntries) && fresh(flows)
      ensures fresh(streamTable) && fresh(streamTable.bucketArray) && fresh(streamTable.nodes)
      ensures fresh(addrTable) && fresh(addrTable.bucketArray) && fresh(addrTable.nodes)
    {
      hide Init;
      hide Holding;
      hide Lookup.Plain;
      Lookup.KeyOpsArePlain();
      var st := NewLookup(StreamKeyOps(), NUM_STREAMS / 5);
      var at := NewLookup(Lookup.AddrKeyOps(), NUM_ADDRS / 5);
      streamTable, addrTable := st, at;
      hide StreamKeyOps;
      hide Lookup.AddrKeyOps;
      this.isLan := isLan;
      streams := new StreamInfo[NUM_STREAMS](_ => NO_STREAM);
      addrs := new AddrInfo[NUM_ADDRS](_ => NO_ADDR);
      mainEntries := new nat[MAIN_ROOM];
      waitEntries := new nat[WAIT_ROOM];
      flows := new Flow[6](_ => Flow(0, 0));
      mainI, waitI := 0, 0;
      streamPool, lanPool, wanPool := Init(0, NUM_STREAMS), Init(0, LAN_SIZE), Init(LAN_SIZE, NUM_ADDRS - LAN_SIZE);
      streamMap, addrMap := map[], map[];
      lastSec, nextStream, nextAddr := 0, 0, 0;
      released, gone, refused := {}, {}, Flow(0, 0);
      new;
      assert streams[..] == InitialState().streams && addrs[..] == InitialState().addrs && flows[..] == InitialState().flows;
    }

    lemma ViewParts()
      requires Valid()
      ensures var s := View();
              && s.streamPool == streamPool && s.streamMap == streamMap && s.addrMap == addrMap && s.refused == refused
              && |s.streams| == streams.Length && |s.addrs| == addrs.Length && |s.flows| == 6
    {
    }

    // ----- the lookup tables -----

    /** The stream table's memory: its old nodes and buckets, or new ones. */
    twostate predicate StreamMemory()
      reads streamTable
    {
      && fresh(streamTable.nodes - old(streamTable.nodes))
      && (streamTable.bucketArray == old(streamTable.bucketArray) || fresh(streamTable.bucketArray))
    }

    twostate predicate AddrMemory()
      reads addrTable
    {
      && fresh(addrTable.nodes - old(addrTable.nodes))
      && (addrTable.bucketArray == old(addrTable.bucketArray) || fresh(addrTable.bucketArray))
    }

    /** shm_stream_lookup. */
    method FindStream(key: StreamKey) returns (r: Chains.Option<nat>)
      requires StreamsKept()
      ensures r == Lookup.Entry(streamMap, key)
    {
      r := streamTable.Get(key);
    }

    /** HashTablePut on the stream table, memory permitting. */
    method KeepStream(key: StreamKey, i: nat)
      requires StreamsKept()
      modifies this`streamMap, streamTable, streamTable.bucketArray, streamTable.nodes
      ensures StreamsKept() && StreamMemory() && streamMap == old(streamMap)[key := i]
    {
      hide Lookup.Represents;
      hide StreamKeyOps;
      Lookup.KeyOpsArePlain();
      Lookup.PutRepresents(StreamKeyOps(), streamTable.table, streamMap, key, i);
      var err := streamTable.Put(key, i, true, true);
      streamMap := streamMap[key := i];
    }

    /** shm_stream_lookup_free. */
    method ForgetStream(key: StreamKey)
      requires StreamsKept()
      modifies this`streamMap, streamTable, streamTable.bucketArray, streamTable.nodes
      ensures StreamsKept() && StreamMemory() && streamMap == old(streamMap) - {key}
      ensures streamTable.nodes == old(streamTable.nodes) && streamTable.bucketArray == old(streamTable.bucketArray)
    {
      hide Lookup.Represents;
      hide StreamKeyOps;
      Lookup.KeyOpsArePlain();
      Lookup.RemoveRepresents(StreamKeyOps(), streamTable.table, streamMap, key);
      streamTable.Remove(key);
      streamMap := streamMap - {key};
    }

    method FindAddr(ip: Addr) returns (r: Chains.Option<nat>)
      requires AddrsKept()
      ensures r == Lookup.Entry(addrMap, ip)
    {
      r := addrTable.Get(ip);
    }

    method KeepAddr(ip: Addr, a: nat)
      requires AddrsKept()
      modifies this`addrMap, addrTable, addrTable.bucketArray, addrTable.nodes
      ensures AddrsKept() && AddrMemory() && addrMap == old(addrMap)[ip := a]
    {
      hide Lookup.Represents;
      hide Lookup.AddrKeyOps;
      Lookup.KeyOpsArePlain();
      Lookup.PutRepresents(Lookup.AddrKeyOps(), addrTable.table, addrMap, ip, a);
      var err := addrTable.Put(ip, a, true, true);
      addrMap := addrMap[ip := a];
    }

    // ----- the cleanup lists -----

    /** add_stream_to_cleanup_list. */
    method AddStreamToCleanupList(sec: nat, i: nat)
      requires Valid()
      modifies this`mainI, this`waitI, mainEntries, waitEntries
      ensures Valid() && View() == Enqueue(old(View()), sec, i)
    {
      if sec % 60 < STAT_PROCESS_TIME_SEC || sec % 60 >= 55 {
        if mainI < mainEntries.Length {
          mainEntries[mainI] := i;
          mainI := mainI + 1;
          assert mainEntries[..mainI] == old(mainEntries[..mainI]) + [i];
        }
      } else if waitI < waitEntries.Length {
        waitEntries[waitI] := i;
        waitI := waitI + 1;
        assert waitEntries[..waitI] == old(waitEntries[..waitI]) + [i];
      }
    }

    /** find_expired_streams.  Its calls of mga_get assert that every index is inside the table. */
    method FindExpiredStreams(sec: nat)
      requires Valid() && streamPool.hi <= streams.Length
      modifies this`mainI, this`waitI, mainEntries, waitEntries
      ensures Valid() && View() == FindExpired(old(View()), sec)
    {
      hide Enqueue;
      hide IsExpired;
      hide ExpiredBelow;
      hide EnqueueAll;
      ghost var s0 := View();
      ExpiryStart(s0, sec, streamPool.lo + 1);
      ExpiryStart(s0, sec, streamPool.hi);
      var i := streamPool.lo + 1;
      if i >= streamPool.hi {
        return;
      }
      while i < streamPool.hi
        invariant streamPool.lo < i <= streamPool.hi && Valid()
        invariant View() == EnqueueAll(s0, sec, ExpiredBelow(s0, sec, i))
      {
        EnqueueAllFrame(s0, sec, ExpiredBelow(s0, sec, i));
        ExpiryStep(s0, View(), sec, i);
        VisitSlot(sec, i);
        i := i + 1;
      }
    }

    /** The body of that loop. */
    method VisitSlot(sec: nat, i: nat)
      requires Valid() && i < streams.Length
      modifies this`mainI, this`waitI, mainEntries, waitEntries
      ensures Valid() && View() == if IsExpired(old(View()), sec, i) then Enqueue(old(View()), sec, i) else old(View())
    {
      hide Enqueue;
      if i in streamPool.taken && U32(sec - streams[i].tlast.sec) > STREAM_EXPIRED_SEC {
        AddStreamToCleanupList(sec, i);
      }
    }

    /** shm_addr_free. */
    method AddrRelease(a: nat)
      requires Valid()
      modifies this`lanPool, this`wanPool, this`released, this`gone, addrs
      ensures Valid() && View() == AddrFree(old(View()), a)
    {
      hide Free;
      hide Releases;
      released := released + {a};
      gone := gone + if a < addrs.Length then {addrs[a].addrOffset} else {};
      if a < addrs.Length && Releases(if a >= lanPool.total then wanPool else lanPool, a) {
        addrs[a] := addrs[a].(tstart := addrs[a].tstart.(sec := 0));
        assert addrs[..] == Cleared(old(addrs[..]), a);
      }
      if a >= lanPool.total {
        wanPool := Free(wanPool, a);
      } else {
        lanPool := Free(lanPool, a);
      }
    }

    /** One round of the release loop of cleanup_expired_streams. */
    method ReleaseStream(i: nat)
      requires Valid() && StreamsKept() && HasRefs(View(), i)
      modifies this`streamMap, this`streamPool, this`lanPool, this`wanPool, this`released, this`gone, streams, addrs
      modifies streamTable, streamTable.bucketArray, streamTable.nodes
      ensures Valid() && View() == CleanOne(old(View()), i)
      ensures StreamsKept() && streamTable.nodes == old(streamTable.nodes) && streamTable.bucketArray == old(streamTable.bucketArray)
    {
      hide StreamsKept;
      hide AddrsKept;
      hide Free;
      hide InitV4;
      hide ReleaseAddrs;
      ghost var s0 := View();
      var ss := streams[i];
      var l, r := ss.idxLeft, ss.idxRight;
      var key := InitV4(ss.ipproto, Endpoint(addrs[l].addrOffset, ss.lport), Endpoint(addrs[r].addrOffset, ss.rport)).0;
      ForgetStream(key);
      ReleaseEnds(l, r);
      if Releases(streamPool, i) {
        streams[i] := ss.(tstart := ss.tstart.(sec := 0));
        assert streams[..] == s0.streams[i := ss.(tstart := ss.tstart.(sec := 0))];
      }
      streamPool := Free(streamPool, i);
    }

    /** Both counts go down, and an address without streams is freed. */
    method ReleaseEnds(l: nat, r: nat)
      requires Valid() && l < addrs.Length && r < addrs.Length
      modifies this`lanPool, this`wanPool, this`released, this`gone, addrs
      ensures Valid() && View() == ReleaseAddrs(old(View()), l, r)
    {
      hide AddrFree;
      hide U16;
      ghost var s0 := View();
      addrs[l] := addrs[l].(nstreamsActive := U16(addrs[l].nstreamsActive - 1));
      addrs[r] := addrs[r].(nstreamsActive := U16(addrs[r].nstreamsActive - 1));
      assert addrs[..] == DecActive(DecActive(s0.addrs, l), r);
      AddrFreeFrame(View(), l);
      if addrs[l].nstreamsActive == 0 {
        AddrRelease(l);
      }
      if addrs[r].nstreamsActive == 0 {
        AddrRelease(r);
      }
    }

    /** cleanup_expired_streams.  fault: the search for expired streams leaves the table. */
    method CleanupExpiredStreams(sec: nat) returns (fault: bool)
      requires Valid() && StreamsKept()
      modifies this`mainI, this`waitI, this`streamMap, this`streamPool, this`lanPool, this`wanPool, this`released, this`gone
      modifies streams, addrs, mainEntries, waitEntries, streamTable, streamTable.bucketArray, streamTable.nodes
      ensures Valid()
      ensures StreamsKept() && streamTable.nodes == old(streamTable.nodes) && streamTable.bucketArray == old(streamTable.bucketArray)
      ensures fault <==> sec % 60 >= STAT_PROCESS_TIME_SEC && old(mainI) > 0 && old(streamPool.hi) > streams.Length
      ensures !fault ==> View() == CleanupPass(old(View()), sec)
    {
      hide StreamsKept;
      hide AddrsKept;
      fault := false;
      if sec % 60 < STAT_PROCESS_TIME_SEC || mainI == 0 {
        return;
      }
      if streamPool.hi > streams.Length {
        return true;
      }
      FindExpiredStreams(sec);
      ghost var f := View();
      ReleaseAll();
      CleanAllFrame(f, f.main);
      MoveWaitToMain();
    }

    method ReleaseAll()
      requires Valid() && StreamsKept()
      modifies this`streamMap, this`streamPool, this`lanPool, this`wanPool, this`released, this`gone, streams, addrs
      modifies streamTable, streamTable.bucketArray, streamTable.nodes
      ensures Valid() && View() == CleanAll(old(View()), old(View()).main)
      ensures StreamsKept() && streamTable.nodes == old(streamTable.nodes) && streamTable.bucketArray == old(streamTable.bucketArray)
    {
      hide StreamsKept;
      hide AddrsKept;
      hide CleanOne;
      ghost var f := View();
      var i := 0;
      while i < mainI
        invariant 0 <= i <= mainI && Valid() && StreamsKept()
        invariant streamTable.nodes == old(streamTable.nodes) && streamTable.bucketArray == old(streamTable.bucketArray)
        invariant View() == CleanAll(f, f.main[..i])
      {
        assert f.main[..i + 1][..i] == f.main[..i] && f.main[..i + 1][i] == mainEntries[i];
        var slot := mainEntries[i];
        if slot < streams.Length && streams[slot].idxLeft < addrs.Length && streams[slot].idxRight < addrs.Length {
          ReleaseStream(slot);
        }
        i := i + 1;
      }
      assert f.main[..i] == f.main;
    }

    method MoveWaitToMain()
      requires Valid()
      modifies this`mainI, this`waitI, mainEntries
      ensures Valid()
      ensures View() == old(View()).(main := old(View()).wait, wait := [])
    {
      ghost var w := waitEntries[..waitI];
      mainI := 0;
      var i := 0;
      while i < waitI
        invariant 0 <= i <= waitI && mainI == i && Valid() && waitI == old(waitI)
        invariant mainEntries[..mainI] == w[..i] && waitEntries[..waitI] == w
      {
        if mainI < mainEntries.Length {
          mainEntries[mainI] := waitEntries[i];
          mainI := mainI + 1;
        }
        i := i + 1;
      }
      waitI := 0;
    }

    /** Lookup of an address and, on a miss, shm_addr_alloc_v4.  ok is false for NULL and for
        whatever would be undefined. */
    method AddrLookupOrAlloc(ip: Addr, ts: Tval) returns (ok: bool, idx: nat)
      requires Valid() && AddrsKept()
      modifies this`lanPool, this`wanPool, this`addrMap, this`nextAddr, addrs
      modifies addrTable, addrTable.bucketArray, addrTable.nodes
      ensures Valid() && AddrsKept() && AddrMemory()
      ensures ok <==> AddrFor(old(View()), ip, ts, isLan).GotAddr?
      ensures ok ==> AddrFor(old(View()), ip, ts, isLan) == GotAddr(View(), idx)
    {
      hide AddrsKept;
      hide AddrAlloc;
      var found := FindAddr(ip);
      if found.Some? {
        return true, found.value;
      }
      ok, idx := AllocAddr(ip, ts, isLan(ip));
    }

    /** shm_addr_alloc_v4 with its caller's start time. */
    method AllocAddr(ip: Addr, ts: Tval, lan: bool) returns (ok: bool, idx: nat)
      requires Valid() && AddrsKept()
      modifies this`lanPool, this`wanPool, this`addrMap, this`nextAddr, addrs
      modifies addrTable, addrTable.bucketArray, addrTable.nodes
      ensures Valid() && AddrsKept() && AddrMemory()
      ensures ok <==> AddrAlloc(old(View()), ip, ts, lan).GotAddr?
      ensures ok ==> AddrAlloc(old(View()), ip, ts, lan) == GotAddr(View(), idx)
    {
      hide Alloc;
      hide AddrsKept;
      ok, idx := false, 0;
      var o := Alloc(if lan then lanPool else wanPool);
      if !o.Handed? || o.idx >= addrs.Length {
        return;
      }
      ok, idx := true, o.idx;
      FillAddr(o.pool, idx, ip, ts, lan);
      KeepAddr(ip, idx);
    }

    /** The pool and the record of a new address, before its lookup entry is made. */
    method FillAddr(pool: Pool, idx: nat, ip: Addr, ts: Tval, lan: bool)
      requires Valid() && AddrsKept() && idx < addrs.Length
      modifies this`lanPool, this`wanPool, this`nextAddr, addrs
      ensures Valid() && AddrsKept()
      ensures var s := old(View());
              View() == s.(lanPool := if lan then pool else s.lanPool, wanPool := if lan then s.wanPool else pool,
                           addrs := s.addrs[idx := NewAddr(s, idx, ip, ts, lan)], nextAddr := s.nextAddr + 1)
    {
      hide AddrsKept;
      if lan {
        lanPool := pool;
      } else {
        wanPool := pool;
      }
      addrs[idx] := AddrInfo(ts, nextAddr, ip, lan, ZERO16, ZERO16, 0, 0, 0, 0, addrs[idx].rxbytes);
      nextAddr := nextAddr + 1;
      assert addrs[..] == old(addrs[..])[idx := NewAddr(old(View()), idx, ip, ts, lan)];
    }

    /** The two addresses of a new stream. */
    method BothEnds(key: StreamKey, ts: Tval) returns (ok: bool, l: nat, r: nat)
      requires Valid() && Lookups()
      modifies this`lanPool, this`wanPool, this`addrMap, this`nextAddr, addrs
      modifies addrTable, addrTable.bucketArray, addrTable.nodes
      ensures Valid() && Lookups() && AddrMemory()
      ensures ok <==> Ends2(old(View()), key, ts, isLan).Both?
      ensures ok ==> Ends2(old(View()), key, ts, isLan) == Both(View(), l, r) && l < addrs.Length && r < addrs.Length
    {
      hide StreamsKept;
      hide AddrsKept;
      hide AddrFor;
      r := 0;
      ok, l := AddrLookupOrAlloc(key.left, ts);
      if ok {
        ok, r := AddrLookupOrAlloc(key.right, ts);
        ok := ok && l < addrs.Length && r < addrs.Length;
      }
    }

    /** The branch of on_packet for an unknown key. */
    method NewStreamSlot(pkt: Packet, key: StreamKey) returns (full: bool, ok: bool, i: nat)
      requires Valid() && Lookups()
      modifies this`streamPool, this`streamMap, this`lanPool, this`wanPool, this`addrMap
      modifies this`nextAddr, this`nextStream, streams, addrs
      modifies streamTable, streamTable.bucketArray, streamTable.nodes, addrTable, addrTable.bucketArray, addrTable.nodes
      ensures Valid() && Lookups() && StreamMemory() && AddrMemory()
      ensures full <==> CreateStream(old(View()), pkt, key, isLan).NoSlot?
      ensures full ==> View() == old(View())
      ensures !full && ok <==> CreateStream(old(View()), pkt, key, isLan).Made?
      ensures !full && ok ==> CreateStream(old(View()), pkt, key, isLan) == Made(View(), i)
    {
      hide Valid;
      hide StreamsKept;
      hide AddrsKept;
      hide Alloc;
      hide Placed;
      hide CreateStream;
      hide FlowType;
      CreateByStages(View(), pkt, key, isLan);
      var o := Alloc(streamPool);
      full, ok, i := o.NoRoom?, false, 0;
      if o.Handed? && o.idx < streams.Length {
        i := o.idx;
        ok := OpenStream(o.pool, i, pkt, key);
      }
    }

    /** Pool, lookup entry, addresses and record of a new stream in slot i. */
    method OpenStream(pool: Pool, i: nat, pkt: Packet, key: StreamKey) returns (ok: bool)
      requires Valid() && Lookups() && i < streams.Length
      modifies this`streamPool, this`streamMap, this`lanPool, this`wanPool, this`addrMap
      modifies this`nextAddr, this`nextStream, streams, addrs
      modifies streamTable, streamTable.bucketArray, streamTable.nodes, addrTable, addrTable.bucketArray, addrTable.nodes
      ensures Valid() && Lookups() && StreamMemory() && AddrMemory()
      ensures var s := old(View());
              var r := Placed(s.(streamPool := pool, streamMap := s.streamMap[key := i]), i, pkt, key, isLan);
              (ok <==> r.Made?) && (ok ==> r == Made(View(), i))
    {
      hide Valid;
      hide StreamsKept;
      hide AddrsKept;
      hide Placed;
      TakeStreamSlot(pool, i, key);
      ok := PlaceStream(i, pkt, key);
    }

    /** Both addresses of a new stream, then its record. */
    method PlaceStream(i: nat, pkt: Packet, key: StreamKey) returns (ok: bool)
      requires Valid() && Lookups() && i < streams.Length
      modifies this`lanPool, this`wanPool, this`addrMap, this`nextAddr, this`nextStream, streams, addrs
      modifies addrTable, addrTable.bucketArray, addrTable.nodes
      ensures Valid() && Lookups() && AddrMemory()
      ensures ok <==> Placed(old(View()), i, pkt, key, isLan).Made?
      ensures ok ==> Placed(old(View()), i, pkt, key, isLan) == Made(View(), i)
    {
      hide StreamsKept;
      hide AddrsKept;
      hide Ends2;
      hide NewStream;
      var l, r;
      ok, l, r := BothEnds(key, pkt.ts);
      if ok {
        FillStream(i, pkt, key, l, r);
      }
    }

    /** The pool and the lookup entry of a new stream. */
    method TakeStreamSlot(pool: Pool, i: nat, key: StreamKey)
      requires Valid() && Lookups()
      modifies this`streamPool, this`streamMap, streamTable, streamTable.bucketArray, streamTable.nodes
      ensures Valid() && Lookups() && StreamMemory()
      ensures var s := old(View()); View() == s.(streamPool := pool, streamMap := s.streamMap[key := i])
    {
      hide StreamsKept;
      hide AddrsKept;
      streamPool := pool;
      KeepStream(key, i);
    }

    method FillStream(i: nat, pkt: Packet, key: StreamKey, l: nat, r: nat)
      requires Valid() && Lookups() && i < streams.Length && l < addrs.Length && r < addrs.Length
      modifies streams, this`nextStream
      ensures Valid() && Lookups()
      ensures var s := old(View());
              View() == s.(streams := s.streams[i := NewStream(s, pkt, key, l, r)], nextStream := s.nextStream + 1)
    {
      hide StreamsKept;
      hide AddrsKept;
      hide FlowType;
      streams[i] := StreamInfo(pkt.ts, pkt.ts, nextStream, l, r, key.lport, key.rport, key.ipproto,
                               FlowType(addrs[l].internal, addrs[r].internal, key.rport), 0, 0);
      nextStream := nextStream + 1;
      assert streams[..] == old(streams[..])[i := NewStream(old(View()), pkt, key, l, r)];
    }

    /** The stream's last time and, on its first FIN or RST, its cleanup flag. */
    method NoteStream(i: nat, pkt: Packet)
      requires Valid() && HasRefs(View(), i)
      modifies this`mainI, this`waitI, mainEntries, waitEntries, streams
      ensures Valid() && View() == NoteFlags(old(View()), i, pkt)
    {
      hide HasCleanup;
      ghost var s0 := View();
      var ss := streams[i].(tlast := pkt.ts);
      if pkt.istcp && pkt.isfin && !HasCleanup(ss.flowflags) {
        AddStreamToCleanupList(pkt.ts.sec, i);
        ss := ss.(flowflags := SetCleanup(ss.flowflags));
      }
      streams[i] := ss;
      assert streams[..] == s0.streams[i := ss];
    }

    /** inc_stream_counters with inc_addr_ctrs. */
    method CountOnStream(i: nat, flipped: bool, len: nat)
      requires Valid() && HasRefs(View(), i)
      modifies streams, addrs
      ensures View() == IncStreamCounters(old(View()), i, flipped, len)
    {
      hide U32;
      hide U16;
      ghost var s0 := View();
      var ss := streams[i].(packets := U32(streams[i].packets + 1), bytes := U32(streams[i].bytes + len));
      streams[i] := ss;
      assert streams[..] == s0.streams[i := ss];
      var l, r := ss.idxLeft, ss.idxRight;
      if ss.packets == 1 {
        addrs[l] := addrs[l].(nstreamsActive := U16(addrs[l].nstreamsActive + 1));
        addrs[r] := addrs[r].(nstreamsActive := U16(addrs[r].nstreamsActive + 1));
        assert addrs[..] == IncActive(IncActive(s0.addrs, l), r);
      }
      ghost var counted := addrs[..];
      var src, dst := if flipped then r else l, if flipped then l else r;
      addrs[src] := Sent(addrs[src], len);
      addrs[dst] := Received(addrs[dst], len);
      assert addrs[..] == IncAddrCtrs(counted, l, r, flipped, len);
    }

    /** The common path of on_packet up to the cleanup. */
    method TrackPacket(i: nat, pkt: Packet, flipped: bool)
      requires Valid() && HasRefs(View(), i)
      modifies this`mainI, this`waitI, mainEntries, waitEntries, streams, addrs, flows
      ensures Valid() && View() == Track(old(View()), i, pkt, flipped)
    {
      hide NoteFlags;
      hide IncStreamCounters;
      ghost var s0 := View();
      NoteShape(s0, i, pkt);
      NoteStream(i, pkt);
      CountOnStream(i, flipped, pkt.len);
      var k := FlowIndex(streams[i].flowflags);
      BumpFlow(k, pkt.len);
    }

    method BumpFlow(k: nat, len: nat)
      requires Valid()
      modifies flows
      ensures flows[..] == if k < 6 then Bump(old(flows[..]), k, len) else old(flows[..])
    {
      if k < 6 {
        flows[k] := Flow(U32(flows[k].packets + 1), U32(flows[k].bytes + len));
        assert flows[..] == Bump(old(flows[..]), k, len);
      }
    }

    /** on_packet after parsing.  fault stands for a failed assert or an undefined access. */
    method HandlePacket(pkt: Packet) returns (fault: bool)
      requires Valid() && Lookups()
      modifies this, streams, addrs, mainEntries, waitEntries, flows
      modifies streamTable, streamTable.bucketArray, streamTable.nodes, addrTable, addrTable.bucketArray, addrTable.nodes
      ensures Valid() && Lookups() && StreamMemory() && AddrMemory()
      ensures fault <==> OnPacket(old(View()), pkt, isLan).Fault?
      ensures !fault ==> View() == OnPacket(old(View()), pkt, isLan).state
    {
      hide StreamsKept;
      hide AddrsKept;
      hide OnPacket;
      hide InitV4;
      hide Handled;
      OnPacketByStages(View(), pkt, isLan);
      fault := false;
      var (key, flipped) := InitV4(pkt.ipproto, pkt.src, pkt.dst);
      if key.left != 0 && key.right != 0 {
        CountTotal(pkt.len);
        fault := Dispatch(pkt, key, flipped);
      }
    }

    /** on_packet after the total was counted. */
    method Dispatch(pkt: Packet, key: StreamKey, flipped: bool) returns (fault: bool)
      requires Valid() && Lookups()
      modifies this, streams, addrs, mainEntries, waitEntries, flows
      modifies streamTable, streamTable.bucketArray, streamTable.nodes, addrTable, addrTable.bucketArray, addrTable.nodes
      ensures Valid() && Lookups() && StreamMemory() && AddrMemory()
      ensures fault <==> Handled(old(View()), pkt, key, flipped, isLan).Fault?
      ensures !fault ==> View() == Handled(old(View()), pkt, key, flipped, isLan).state
    {
      hide AddrMemory;
      hide StreamsKept;
      hide AddrsKept;
      hide Locate;
      hide Track;
      hide Sweep;
      var full, ok, i := SlotFor(pkt, key);
      fault := !full && !ok;
      if full {
        CountRefused(pkt.len);
      } else if ok {
        fault := FinishPacket(i, pkt, flipped);
      }
    }

    /** shm_inc_global. */
    method CountTotal(len: nat)
      requires Valid() && Lookups()
      modifies flows
      ensures Lookups() && View() == old(View()).(flows := Bump(old(View()).flows, FLOW_TYPE_TOTAL, len))
    {
      hide StreamsKept;
      hide AddrsKept;
      BumpFlow(FLOW_TYPE_TOTAL, len);
    }

    ghost method CountRefused(len: nat)
      requires Valid() && Lookups()
      modifies this`refused
      ensures Valid() && Lookups()
      ensures View() == old(View()).(refused := Flow(old(refused).packets + 1, old(refused).bytes + len))
    {
      hide StreamsKept;
      hide AddrsKept;
      refused := Flow(refused.packets + 1, refused.bytes + len);
    }

    /** The stream of the packet, looked up or created. */
    method SlotFor(pkt: Packet, key: StreamKey) returns (full: bool, ok: bool, i: nat)
      requires Valid() && Lookups()
      modifies this`streamPool, this`streamMap, this`lanPool, this`wanPool, this`addrMap
      modifies this`nextAddr, this`nextStream, streams, addrs
      modifies streamTable, streamTable.bucketArray, streamTable.nodes, addrTable, addrTable.bucketArray, addrTable.nodes
      ensures Valid() && Lookups() && StreamMemory() && AddrMemory()
      ensures full <==> Locate(old(View()), pkt, key, isLan).NoSlot?
      ensures full ==> View() == old(View())
      ensures !full && ok <==> Locate(old(View()), pkt, key, isLan).Made?
      ensures !full && ok ==> Locate(old(View()), pkt, key, isLan) == Made(View(), i)
    {
      hide Valid;
      hide StreamsKept;
      hide AddrsKept;
      hide CreateStream;
      var found := FindStream(key);
      if found.Some? {
        full, ok, i := false, true, found.value;
      } else {
        full, ok, i := NewStreamSlot(pkt, key);
      }
    }

    /** The rest of on_packet: counting, and the cleanup pass. */
    method FinishPacket(i: nat, pkt: Packet, flipped: bool) returns (fault: bool)
      requires Valid() && Lookups()
      modifies this`mainI, this`waitI, this`streamMap, this`streamPool, this`lanPool, this`wanPool, this`released, this`gone
      modifies this`lastSec, streams, addrs, mainEntries, waitEntries, flows
      modifies streamTable, streamTable.bucketArray, streamTable.nodes
      ensures Valid() && Lookups() && streamTable.nodes == old(streamTable.nodes) && streamTable.bucketArray == old(streamTable.bucketArray)
      ensures fault <==> !HasRefs(old(View()), i) || LeavesTable(Track(old(View()), i, pkt, flipped), pkt.ts.sec)
      ensures !fault ==> View() == Sweep(Track(old(View()), i, pkt, flipped), pkt.ts.sec)
    {
      hide StreamsKept;
      hide AddrsKept;
      hide Track;
      hide Sweep;
      hide LeavesTable;
      if !(i < streams.Length && streams[i].idxLeft < addrs.Length && streams[i].idxRight < addrs.Length) {
        return true;
      }
      TrackPacket(i, pkt, flipped);
      fault := SweepAt(pkt.ts.sec);
    }

    method SweepAt(sec: nat) returns (fault: bool)
      requires Valid() && StreamsKept()
      modifies this`mainI, this`waitI, this`streamMap, this`streamPool, this`lanPool, this`wanPool, this`released, this`gone
      modifies this`lastSec, streams, addrs, mainEntries, waitEntries
      modifies streamTable, streamTable.bucketArray, streamTable.nodes
      ensures Valid() && (fault <==> LeavesTable(old(View()), sec))
      ensures StreamsKept() && streamTable.nodes == old(streamTable.nodes) && streamTable.bucketArray == old(streamTable.bucketArray)
      ensures !fault ==> View() == Sweep(old(View()), sec)
    {
      hide StreamsKept;
      hide AddrsKept;
      hide CleanupPass;
      fault := false;
      if U32(sec - lastSec) > 0 {
        fault := CleanupExpiredStreams(sec);
        if !fault {
          lastSec := sec;
        }
      }
    }

    /** A whole capture file: the process stops exactly where the state machine does, and otherwise ends
        in its state, with the invariant if the run fits. */
    method Replay(pkts: seq<Packet>) returns (fault: bool)
      requires Valid() && Lookups() && View() == InitialState()
      modifies this, streams, addrs, mainEntries, waitEntries, flows
      modifies streamTable, streamTable.bucketArray, streamTable.nodes, addrTable, addrTable.bucketArray, addrTable.nodes
      ensures Valid() && Lookups()
      ensures fault <==> RunPackets(pkts, isLan).Stopped?
      ensures !fault ==> View() == RunPackets(pkts, isLan).state
      ensures !fault && Tenancy.RunFits(pkts, isLan) ==> Tenancy.Inv(View())
    {
      hide OnPacket;
      hide InitialState;
      hide Valid;
      hide Lookups;
      hide View;
      RunStart(pkts, isLan);
      hide RunPackets;
      hide Tenancy.RunFits;
      hide Tenancy.Inv;
      fault := false;
      var i := 0;
      while i < |pkts| && !fault
        invariant 0 <= i <= |pkts| && Valid() && Lookups() && StreamMemory() && AddrMemory()
        invariant RunPackets(pkts[..i], isLan) == if fault then Stopped else Running(View())
      {
        ViewParts();
        RunStep(pkts, i, isLan, View());
        fault := HandlePacket(pkts[i]);
        i := i + 1;
      }
      if fault {
        StaysStopped(pkts, i, isLan);
      } else {
        assert pkts[..i] == pkts;
        InvAtEnd(pkts, isLan, View());
      }
    }
  }

  lemma InvAtEnd(pkts: seq<Packet>, isLan: Addr -> bool, s: State)
    requires RunPackets(pkts, isLan) == Running(s)
    ensures Tenancy.RunFits(pkts, isLan) ==> Tenancy.Inv(s)
  {
    hide Tenancy.RunFits;
    hide Tenancy.Inv;
    if Tenancy.RunFits(pkts, isLan) {
      Tenancy.EveryRunKeepsInv(pkts, isLan);
    }
  }

  lemma RunStart(pkts: seq<Packet>, isLan: Addr -> bool)
    ensures RunPackets(pkts[..0], isLan) == Running(InitialState())
  {
    hide InitialState;
  }

  /** One more packet of a run. */
  lemma RunStep(pkts: seq<Packet>, i: nat, isLan: Addr -> bool, s: State)
    requires i < |pkts| && RunPackets(pkts[..i], isLan) == Running(s) && |s.flows| == 6
    ensures RunPackets(pkts[..i + 1], isLan)
            == match OnPacket(s, pkts[i], isLan) case Fault => Stopped case Next(t, _) => Running(t)
  {
    hide OnPacket;
    assert pkts[..i + 1][..i] == pkts[..i];
  }

  /** A run that stopped stays stopped. */
  lemma {:induction false} StaysStopped(pkts: seq<Packet>, n: nat, isLan: Addr -> bool)
    requires n <= |pkts| && RunPackets(pkts[..n], isLan).Stopped?
    ensures RunPackets(pkts, isLan).Stopped?
    decreases |pkts|
  {
    if n == |pkts| {
      assert pkts[..n] == pkts;
    } else {
      var before := pkts[..|pkts| - 1];
      assert before[..n] == pkts[..n];
      StaysStopped(before, n, isLan);
    }
  }

  datatype EndsResult = NoEnds | Both(state: State, l: nat, r: nat)

  /** Both lookups of CreateStream. */
  function Ends2(s: State, key: StreamKey, ts: Tval, isLan: Addr -> bool): EndsResult {
    var a1 := AddrFor(s, key.left, ts, isLan);
    if !a1.GotAddr? then NoEnds
    else
      var a2 := AddrFor(a1.state, key.right, ts, isLan);
      if !a2.GotAddr? || a1.idx >= |a2.state.addrs| || a2.idx >= |a2.state.addrs| then NoEnds
      else Both(a2.state, a1.idx, a2.idx)
  }

  /** The second stage of CreateStream: addresses and record. */
  function Placed(s: State, i: nat, pkt: Packet, key: StreamKey, isLan: Addr -> bool): (r: Created)
    ensures !r.NoSlot? && (r.Made? ==> r.slot == i)
  {
    match Ends2(s, key, pkt.ts, isLan)
    case NoEnds => CreateFault
    case Both(t, l, r) =>
      if i < |t.streams| && l < |t.addrs| && r < |t.addrs|
      then Made(t.(streams := t.streams[i := NewStream(t, pkt, key, l, r)], nextStream := t.nextStream + 1), i)
      else CreateFault
  }

  /** CreateStream in terms of its two stages. */
  lemma CreateByStages(s: State, pkt: Packet, key: StreamKey, isLan: Addr -> bool)
    ensures var o := Alloc(s.streamPool);
            CreateStream(s, pkt, key, isLan) ==
            if o.NoRoom? then NoSlot
            else if o.AssertFails? || o.idx >= |s.streams| then CreateFault
            else Placed(s.(streamPool := o.pool, streamMap := s.streamMap[key := o.idx]), o.idx, pkt, key, isLan)
  {
    hide Alloc;
    hide AddrFor;
    hide NewStream;
    var o := Alloc(s.streamPool);
    if o.Handed? && o.idx < |s.streams| {
      var s1 := s.(streamPool := o.pool, streamMap := s.streamMap[key := o.idx]);
      AddrForKeeps(s1, key.left, pkt.ts, isLan);
      var a1 := AddrFor(s1, key.left, pkt.ts, isLan);
      if a1.GotAddr? {
        AddrForKeeps(a1.state, key.right, pkt.ts, isLan);
      }
    }
  }

  /** The stream of a key, looked up or created. */
  function Locate(s: State, pkt: Packet, key: StreamKey, isLan: Addr -> bool): Created {
    if key in s.streamMap then Made(s, s.streamMap[key]) else CreateStream(s, pkt, key, isLan)
  }

  /** on_packet once the total was counted. */
  function Handled(s: State, pkt: Packet, key: StreamKey, flipped: bool, isLan: Addr -> bool): Step {
    match Locate(s, pkt, key, isLan)
    case NoSlot => Next(s.(refused := Flow(s.refused.packets + 1, s.refused.bytes + pkt.len)), Refused)
    case CreateFault => Fault
    case Made(c, i) =>
      if !HasRefs(c, i) || |c.flows| != 6 || LeavesTable(Track(c, i, pkt, flipped), pkt.ts.sec) then Fault
      else Next(Sweep(Track(c, i, pkt, flipped), pkt.ts.sec), Counted(i))
  }

  /** OnPacket in terms of its stages. */
  lemma OnPacketByStages(s: State, pkt: Packet, isLan: Addr -> bool)
    requires |s.flows| == 6
    ensures var (key, flipped) := InitV4(pkt.ipproto, pkt.src, pkt.dst);
            OnPacket(s, pkt, isLan) ==
            if key.left == 0 || key.right == 0 then Next(s, Ignored)
            else Handled(s.(flows := Bump(s.flows, FLOW_TYPE_TOTAL, pkt.len)), pkt, key, flipped, isLan)
  {
    hide InitV4;
    hide Track;
    hide Sweep;
    hide LeavesTable;
    hide CreateStream;
    hide Bump;
    var (key, flipped) := InitV4(pkt.ipproto, pkt.src, pkt.dst);
    Tenancy.CreateShape(s.(flows := Bump(s.flows, FLOW_TYPE_TOTAL, pkt.len)), pkt, key, isLan);
  }

  lemma NoteShape(s: State, i: nat, pkt: Packet)
    requires HasRefs(s, i)
    ensures HasRefs(NoteFlags(s, i, pkt), i) && NoteFlags(s, i, pkt).flows == s.flows
  {
    hide HasCleanup;
  }

  lemma ExpiryStart(s: State, sec: nat, n: nat)
    ensures n <= s.streamPool.lo + 1 ==> EnqueueAll(s, sec, ExpiredBelow(s, sec, n)) == s
  {
  }

  /** Visiting slot i extends the expired streams by it, or not. */
  lemma ExpiryStep(s: State, t: State, sec: nat, i: nat)
    requires s.streamPool.lo < i && SameBut(s, t) && t == EnqueueAll(s, sec, ExpiredBelow(s, sec, i))
    ensures EnqueueAll(s, sec, ExpiredBelow(s, sec, i + 1)) == if IsExpired(t, sec, i) then Enqueue(t, sec, i) else t
  {
    assert IsExpired(t, sec, i) <==> IsExpired(s, sec, i);
    hide Enqueue;
    hide IsExpired;
    var q := ExpiredBelow(s, sec, i + 1);
    if IsExpired(s, sec, i) {
      assert q[..|q| - 1] == ExpiredBelow(s, sec, i);
    } else {
      assert q == ExpiredBelow(s, sec, i);
    }
  }
}
