// The whole-run invariant of the capture process: live streams, their addresses, the lookup
// maps, the reference counts and the cleanup queues agree after every packet.
module Tenancy {
  import opened Words
  import opened SlotPool
  import opened StreamKeys
  import opened Structs
  import opened Lifecycle
  import opened Capture

  // ----- the invariant -----

  /** The lookup map holds the key of each live stream and nothing else. */
  ghost predicate MapAgrees(s: State)
    requires RefsOk(s)
  {
    && (forall i: nat :: i in s.Live() ==> KeyOf(s, i) in s.streamMap && s.streamMap[KeyOf(s, i)] == i)
    && (forall k :: k in s.streamMap ==> s.streamMap[k] in s.Live() && KeyOf(s, s.streamMap[k]) == k)
  }

  /** The given streams refer to taken address slots. */
  ghost predicate EndsTaken(s: State, live: set<int>) {
    forall i: nat :: i in live ==>
      HasRefs(s, i) && s.streams[i].idxLeft in s.LiveAddrs() && s.streams[i].idxRight in s.LiveAddrs()
  }

  /** The entry of x leads to a taken slot that holds x. */
  predicate Found(s: State, x: Addr)
    requires x in s.addrMap
  {
    s.addrMap[x] < |s.addrs| && s.addrMap[x] in s.LiveAddrs() && s.addrs[s.addrMap[x]].addrOffset == x
  }

  /** shm_addr_free was never called for x, or for the one slot that it does not release. */
  predicate Usable(s: State, x: Addr) {
    x !in s.gone || (x in s.addrMap && s.addrMap[x] == LAN_SIZE)
  }

  /** An entry leads to its address exactly when the address is usable, and the address of a taken
      slot leads back to that slot. */
  ghost predicate AddrEntries(s: State) {
    && (forall x :: x in s.gone ==> x in s.addrMap)
    && (forall x :: x in s.addrMap ==> s.addrMap[x] < |s.addrs| && (Found(s, x) <==> Usable(s, x)))
    && (forall a: nat :: a in s.LiveAddrs() ==>
          a < |s.addrs| && s.addrs[a].addrOffset in s.addrMap && s.addrMap[s.addrs[a].addrOffset] == a)
  }

  ghost predicate CountsFor(s: State, live: set<int>) {
    forall a: nat :: a < |s.addrs| ==>
      s.addrs[a].nstreamsActive == Endpoints(s.streams, live, a, |s.streams|) < 0x1_0000
  }

  /** Packet counters are 32-bit words. */
  ghost predicate WordSized(s: State) {
    forall i :: 0 <= i < |s.streams| ==> s.streams[i].packets < 0x1_0000_0000
  }

  ghost predicate Linked(s: State) {
    && RefsOk(s) && CountsFor(s, s.Live()) && MapAgrees(s) && EndsTaken(s, s.Live())
    && AddrEntries(s) && SplitPools(s) && WordSized(s)
  }

  /** Queued streams are live and queued once. */
  ghost predicate QueueOk(s: State) {
    QueuedOnce(s) && ListsFit(s)
  }

  ghost predicate PoolsOk(s: State) {
    && ProductionPools(s) && Ok(s.streamPool) && s.streamPool.idxMin == 0
    && s.streamPool.total == NUM_STREAMS == |s.streams| && |s.addrs| == NUM_ADDRS
  }

  ghost predicate Inv(s: State) {
    Linked(s) && QueueOk(s) && PoolsOk(s) && |s.flows| == 6
  }

  // ----- releasing streams -----

  lemma FreeDropsAtMost(p: Pool, a: nat)
    ensures forall b :: b in p.taken && b != a ==> b in Free(p, a).taken
    ensures forall b :: b in Free(p, a).taken ==> b in p.taken
  {
    hide ShrinkLo;
    hide ShrinkHi;
  }

  /** A newly gone address was that of slot a, and a has left the pools unless it is slot 256. */
  predicate GoneAt(s: State, t: State, a: nat, x: Addr)
    requires a < |s.addrs|
  {
    x == s.addrs[a].addrOffset && (a == LAN_SIZE || a !in t.LiveAddrs())
  }

  /** Only slots whose count is zero leave the address pools, never slot 256, and exactly the
      addresses of emptied slots are noted. */
  lemma ReleaseAddrsPools(s: State, l: nat, r: nat)
    requires l < |s.addrs| && r < |s.addrs| && SplitPools(s)
    ensures var t := ReleaseAddrs(s, l, r);
            && SplitPools(t) && t.LiveAddrs() <= s.LiveAddrs()
            && |t.addrs| == |s.addrs| && t.addrMap == s.addrMap && s.gone <= t.gone
            && (forall b :: b in s.LiveAddrs() && b !in t.LiveAddrs() ==>
                  (b == l || b == r) && b != LAN_SIZE && t.addrs[b].nstreamsActive == 0 && t.addrs[b].addrOffset in t.gone)
            && (forall x :: x in t.gone && x !in s.gone ==> GoneAt(s, t, l, x) || GoneAt(s, t, r, x))
  {
    hide AddrFree;
    hide SplitPools;
    var addrs := DecActive(DecActive(s.addrs, l), r);
    var s1 := s.(addrs := addrs);
    SplitIsOfPools(s, s1);
    AddrFreeNotes(s1, l);
    var s2 := if addrs[l].nstreamsActive == 0 then AddrFree(s1, l) else s1;
    AddrFreeNotes(s2, r);
  }

  lemma SplitIsOfPools(s: State, t: State)
    requires SplitPools(s) && t.lanPool == s.lanPool && t.wanPool == s.wanPool
    ensures SplitPools(t)
  {
  }

  lemma AddrFreeNotes(s: State, a: nat)
    requires a < |s.addrs| && SplitPools(s)
    ensures var t := AddrFree(s, a);
            && SplitPools(t) && t.LiveAddrs() == (if a == LAN_SIZE then s.LiveAddrs() else s.LiveAddrs() - {a})
            && t.gone == s.gone + {s.addrs[a].addrOffset} && t.addrMap == s.addrMap && |t.addrs| == |s.addrs|
            && (forall b :: 0 <= b < |s.addrs| ==> t.addrs[b] == s.addrs[b].(tstart := t.addrs[b].tstart))
  {
    AddrFreeReleasesIff(s, a);
    AddrFreeFrame(s, a);
    hide Free;
    hide Releases;
    hide SplitPools;
  }

  /** Streams and addresses keep what keys are made of. */
  ghost predicate SameKeys(s: State, t: State) {
    && |t.streams| == |s.streams| && |t.addrs| == |s.addrs|
    && (forall i :: 0 <= i < |s.streams| ==>
          && t.streams[i].idxLeft == s.streams[i].idxLeft && t.streams[i].idxRight == s.streams[i].idxRight
          && t.streams[i].lport == s.streams[i].lport && t.streams[i].rport == s.streams[i].rport
          && t.streams[i].ipproto == s.streams[i].ipproto)
    && (forall a :: 0 <= a < |s.addrs| ==> t.addrs[a].addrOffset == s.addrs[a].addrOffset)
  }

  lemma SameKeysKeyOf(s: State, t: State, i: nat)
    requires SameKeys(s, t) && HasRefs(s, i)
    ensures HasRefs(t, i) && KeyOf(t, i) == KeyOf(s, i)
  {
  }

  lemma CleanOneMap(s: State, t: State, i: nat)
    requires RefsOk(s) && MapAgrees(s) && i in s.Live() && SameKeys(s, t)
    requires t.Live() == s.Live() - {i} && t.streamMap == s.streamMap - {KeyOf(s, i)}
    ensures RefsOk(t) && MapAgrees(t)
  {
    hide KeyOf;
    forall j: nat | j in s.Live()
      ensures HasRefs(t, j) && KeyOf(t, j) == KeyOf(s, j)
    {
      SameKeysKeyOf(s, t, j);
    }
  }

  lemma CleanOneEnds(s: State, t: State, i: nat)
    requires Linked(s) && i in s.Live() && SameKeys(s, t) && t.Live() == s.Live() - {i}
    requires CountsFor(t, t.Live())
    requires forall b :: b in s.LiveAddrs() && b !in t.LiveAddrs() ==> 0 <= b < |t.addrs| && t.addrs[b].nstreamsActive == 0
    ensures EndsTaken(t, t.Live())
  {
    hide MapAgrees;
    hide AddrEntries;
    forall j: nat | j in t.Live()
      ensures HasRefs(t, j) && t.streams[j].idxLeft in t.LiveAddrs() && t.streams[j].idxRight in t.LiveAddrs()
    {
      assert HasRefs(s, j);
      EndpointsAtLeast(t.streams, t.Live(), j, t.streams[j].idxLeft, |t.streams|);
      EndpointsAtLeast(t.streams, t.Live(), j, t.streams[j].idxRight, |t.streams|);
    }
  }

  /** What CleanOne does to the tables and pools, gathered from its parts. */
  lemma CleanOneShape(s: State, i: nat)
    requires RefsOk(s) && CountsAgree(s) && Framed(s.streamPool) && SplitPools(s) && i in s.Live()
    ensures HasRefs(s, i)
    ensures var t := CleanOne(s, i);
            && SplitPools(t) && t.LiveAddrs() <= s.LiveAddrs()
            && SameKeys(s, t) && SameQueues(s, t) && Framed(t.streamPool)
            && t.Live() == s.Live() - {i} && t.streamMap == s.streamMap - {KeyOf(s, i)}
            && CountsFor(t, t.Live())
            && t.addrMap == s.addrMap && s.gone <= t.gone
            && (forall b :: b in s.LiveAddrs() && b !in t.LiveAddrs() ==>
                  0 <= b < |t.addrs| && b != LAN_SIZE && t.addrs[b].nstreamsActive == 0 && t.addrs[b].addrOffset in t.gone)
            && (forall x :: x in t.gone && x !in s.gone ==> GoneWith(s, t, i, x))
  {
    hide SplitPools;
    hide Free;
    hide KeyOf;
    hide ReleaseAddrs;
    hide ActiveAt;
    hide Framed;
    hide CountsAgree;
    hide CountsFor;
    assert HasRefs(s, i);
    var ss := s.streams[i];
    CleanOneReleases(s, i);
    CountsBridge(CleanOne(s, i));
    CleanOneFrame(s, i);
    var s1 := s.(streamMap := s.streamMap - {KeyOf(s, i)});
    SplitIsOfPools(s, s1);
    ReleaseAddrsPools(s1, ss.idxLeft, ss.idxRight);
    ReleaseAddrsFrame(s1, ss.idxLeft, ss.idxRight);
    SplitIsOfPools(ReleaseAddrs(s1, ss.idxLeft, ss.idxRight), CleanOne(s, i));
  }

  /** x is the address of an endpoint of stream i whose slot was released. */
  predicate GoneWith(s: State, t: State, i: nat, x: Addr)
    requires HasRefs(s, i)
  {
    GoneAt(s, t, s.streams[i].idxLeft, x) || GoneAt(s, t, s.streams[i].idxRight, x)
  }

  lemma CleanOneEntries(s: State, t: State, i: nat)
    requires AddrEntries(s) && EndsTaken(s, s.Live()) && i in s.Live() && HasRefs(s, i) && SameKeys(s, t)
    requires t.addrMap == s.addrMap && s.gone <= t.gone && t.LiveAddrs() <= s.LiveAddrs()
    requires forall b :: b in s.LiveAddrs() && b !in t.LiveAddrs() ==>
               0 <= b < |t.addrs| && b != LAN_SIZE && t.addrs[b].addrOffset in t.gone
    requires forall x :: x in t.gone && x !in s.gone ==> GoneWith(s, t, i, x)
    ensures AddrEntries(t)
  {
    forall x | x in t.addrMap
      ensures t.addrMap[x] < |t.addrs| && (Found(t, x) <==> Usable(t, x))
    {
      assert Found(s, x) <==> Usable(s, x);
    }
  }

  lemma CleanOneLinked(s: State, i: nat)
    requires Linked(s) && Framed(s.streamPool) && i in s.Live()
    ensures HasRefs(s, i) && Linked(CleanOne(s, i)) && Framed(CleanOne(s, i).streamPool)
  {
    hide CleanOne;
    hide KeyOf;
    hide MapAgrees;
    hide AddrEntries;
    hide CountsFor;
    hide EndsTaken;
    hide CountsAgree;
    hide RefsOk;
    hide WordSized;
    hide SplitPools;
    CountsBridge(s);
    CleanOneShape(s, i);
    var t := CleanOne(s, i);
    CleanOneMap(s, t, i);
    CleanOneEnds(s, t, i);
    CleanOneEntries(s, t, i);
    CleanOneRest(s, t);
  }

  lemma CountsBridge(s: State)
    ensures CountsAgree(s) <==> CountsFor(s, s.Live())
  {
  }

  lemma CleanOneRest(s: State, t: State)
    requires WordSized(s) && SameQueues(s, t)
    ensures WordSized(t)
  {
  }

  lemma {:induction false} CleanAllLinked(s: State, slots: seq<nat>)
    requires Linked(s) && Framed(s.streamPool)
    requires NoDup(slots) && forall k :: 0 <= k < |slots| ==> slots[k] in s.Live()
    ensures Linked(CleanAll(s, slots)) && Framed(CleanAll(s, slots).streamPool)
    ensures CleanAll(s, slots).Live() == s.Live() - SetOf(slots)
    decreases |slots|
  {
    if slots != [] {
      hide CleanOne;
      hide Framed;
      var n := |slots| - 1;
      var before := slots[..n];
      CleanAllLinked(s, before);
      CountsBridge(s);
      CleanAllReleases(s, slots);
      CleanOneLinked(CleanAll(s, before), slots[n]);
    }
  }

  // ----- the cleanup pass -----

  lemma PassKeepsLinked(s: State, sec: nat)
    requires Linked(s) && QueueOk(s) && Framed(s.streamPool)
    requires sec % 60 >= STAT_PROCESS_TIME_SEC && s.main != [] ==> ExpiryFits(s, sec)
    ensures Linked(CleanupPass(s, sec)) && QueueOk(CleanupPass(s, sec))
  {
    hide Linked;
    hide FindExpired;
    hide Framed;
    hide QueuedOnce;
    if sec % 60 >= STAT_PROCESS_TIME_SEC && s.main != [] {
      var f := FindExpired(s, sec);
      ExpiryKeepsOnceIff(s, sec);
      FindExpiredFrame(s, sec);
      LinkedCounts(s);
      PassReleasesMainList(s, sec);
      SameTables(s, f);
      MainIsOnce(f);
      CleanAllLinked(f, f.main);
      CleanAllFrame(f, f.main);
      var u, t := CleanAll(f, f.main), CleanupPass(s, sec);
      hide CleanAll;
      assert t == u.(main := f.wait, wait := []);
      SameTables(u, t);
    }
  }

  lemma MainIsOnce(s: State)
    requires QueuedOnce(s)
    ensures NoDup(s.main) && forall k :: 0 <= k < |s.main| ==> s.main[k] in s.Live()
  {
  }

  lemma LinkedCounts(s: State)
    requires Linked(s)
    ensures RefsOk(s) && CountsAgree(s)
  {
    hide KeyOf;
    CountsBridge(s);
  }

  /** Address entries depend on the address pools, the map and the stored addresses. */
  lemma EntriesTransfer(s: State, t: State)
    requires AddrEntries(s) && t.lanPool == s.lanPool && t.wanPool == s.wanPool
    requires t.addrMap == s.addrMap && t.gone == s.gone && |t.addrs| == |s.addrs|
    requires forall a :: 0 <= a < |s.addrs| ==> t.addrs[a].addrOffset == s.addrs[a].addrOffset
    ensures AddrEntries(t)
  {
    assert t.LiveAddrs() == s.LiveAddrs();
    forall x | x in t.addrMap
      ensures t.addrMap[x] < |t.addrs| && (Found(t, x) <==> Usable(t, x))
    {
      assert Found(s, x) <==> Usable(s, x);
    }
  }

  /** Linked speaks of tables, pools and maps only. */
  lemma SameTables(u: State, t: State)
    requires Linked(u) && t == u.(main := t.main, wait := t.wait, lastSec := t.lastSec)
    ensures Linked(t)
  {
    forall i: nat | HasRefs(u, i)
      ensures HasRefs(t, i) && KeyOf(t, i) == KeyOf(u, i)
    {
    }
    hide KeyOf;
    EntriesTransfer(u, t);
    hide AddrEntries;
  }

  /** shm_addr_free of slot a is an anchored release in the pool it goes to. */
  ghost predicate AddrAnchored(s: State, a: nat) {
    Anchored(if a >= s.lanPool.total then s.wanPool else s.lanPool, a)
  }

  /** The address releases of one stream are anchored. */
  ghost predicate EndsAnchored(s: State, l: nat, r: nat)
    requires l < |s.addrs| && r < |s.addrs|
  {
    var addrs := DecActive(DecActive(s.addrs, l), r);
    var s1 := s.(addrs := addrs);
    var s2 := if addrs[l].nstreamsActive == 0 then AddrFree(s1, l) else s1;
    && (addrs[l].nstreamsActive == 0 ==> AddrAnchored(s1, l))
    && (addrs[r].nstreamsActive == 0 ==> AddrAnchored(s2, r))
  }

  ghost predicate OneAnchored(s: State, i: nat)
    requires HasRefs(s, i)
  {
    Anchored(s.streamPool, i) && EndsAnchored(s, s.streams[i].idxLeft, s.streams[i].idxRight)
  }

  /** Every release that the loop over these slots makes is anchored, in the pool as it is then. */
  ghost predicate AllAnchored(s: State, slots: seq<nat>) {
    forall k :: 0 <= k < |slots| && HasRefs(CleanAll(s, slots[..k]), slots[k]) ==>
      OneAnchored(CleanAll(s, slots[..k]), slots[k])
  }

  lemma AddrFreeKeepsPools(s: State, a: nat)
    requires ProductionPools(s) && AddrAnchored(s, a)
    ensures ProductionPools(AddrFree(s, a))
  {
    FreeOkIffAnchored(s.lanPool, a);
    FreeOkIffAnchored(s.wanPool, a);
    hide Ok;
    hide Anchored;
  }

  lemma ReleaseAddrsKeepsPools(s: State, l: nat, r: nat)
    requires l < |s.addrs| && r < |s.addrs| && ProductionPools(s) && EndsAnchored(s, l, r)
    ensures ProductionPools(ReleaseAddrs(s, l, r))
  {
    hide Ok;
    hide AddrAnchored;
    hide AddrFree;
    var addrs := DecActive(DecActive(s.addrs, l), r);
    var s1 := s.(addrs := addrs);
    if addrs[l].nstreamsActive == 0 {
      AddrFreeKeepsPools(s1, l);
    }
    var s2 := if addrs[l].nstreamsActive == 0 then AddrFree(s1, l) else s1;
    if addrs[r].nstreamsActive == 0 {
      AddrFreeKeepsPools(s2, r);
    }
  }

  lemma CleanOneKeepsPools(s: State, i: nat)
    requires HasRefs(s, i) && PoolsOk(s) && OneAnchored(s, i)
    ensures PoolsOk(CleanOne(s, i))
  {
    FreeOkIffAnchored(s.streamPool, i);
    hide Ok;
    hide Anchored;
    hide ReleaseAddrs;
    hide EndsAnchored;
    hide KeyOf;
    CleanOneFrame(s, i);
    var s1 := s.(streamMap := s.streamMap - {KeyOf(s, i)});
    MapIsApart(s, s1, s.streams[i].idxLeft, s.streams[i].idxRight);
    ReleaseAddrsKeepsPools(s1, s.streams[i].idxLeft, s.streams[i].idxRight);
  }

  lemma MapIsApart(s: State, t: State, l: nat, r: nat)
    requires l < |s.addrs| && r < |s.addrs| && EndsAnchored(s, l, r) && t == s.(streamMap := t.streamMap)
    ensures EndsAnchored(t, l, r)
  {
    hide Free;
    hide Anchored;
  }

  /** A loop of anchored releases leaves all three pools sound. */
  lemma {:induction false} CleanAllKeepsPools(s: State, slots: seq<nat>)
    requires PoolsOk(s) && AllAnchored(s, slots)
    ensures PoolsOk(CleanAll(s, slots))
    decreases |slots|
  {
    if slots != [] {
      hide PoolsOk;
      hide OneAnchored;
      hide CleanOne;
      var n := |slots| - 1;
      var before := slots[..n];
      forall k | 0 <= k < n && HasRefs(CleanAll(s, before[..k]), before[k])
        ensures OneAnchored(CleanAll(s, before[..k]), before[k])
      {
        assert before[..k] == slots[..k];
      }
      CleanAllKeepsPools(s, before);
      if HasRefs(CleanAll(s, before), slots[n]) {
        CleanOneKeepsPools(CleanAll(s, before), slots[n]);
      }
    }
  }

  /** What a cleanup pass must be like: its expired streams fit, and its releases are anchored. */
  ghost predicate SweepFits(s: State, sec: nat) {
    PassRuns(s, sec) && ListsFit(s) ==>
      ExpiryFits(s, sec) && var f := FindExpired(s, sec); AllAnchored(f, f.main)
  }

  lemma SweepKeepsPools(s: State, sec: nat)
    requires PoolsOk(s) && ListsFit(s) && SweepFits(s, sec)
    ensures PoolsOk(Sweep(s, sec))
  {
    hide Ok;
    hide CleanAll;
    hide AllAnchored;
    hide FindExpired;
    hide ExpiryFits;
    hide U32;
    if PassRuns(s, sec) {
      FindExpiredFrame(s, sec);
      CleanAllKeepsPools(FindExpired(s, sec), FindExpired(s, sec).main);
    }
  }

  lemma SweepKeepsInv(s: State, sec: nat)
    requires Inv(s) && SweepFits(s, sec)
    ensures Inv(Sweep(s, sec))
  {
    hide Linked;
    hide QueuedOnce;
    hide Ok;
    hide Framed;
    hide AllAnchored;
    hide ExpiryFits;
    hide FindExpired;
    hide CleanupPass;
    SweepKeepsPools(s, sec);
    if U32(sec - s.lastSec) > 0 {
      OkIsFramed(s.streamPool);
      PassKeepsLinked(s, sec);
      PassKeepsFlows(s, sec);
      var t := CleanupPass(s, sec);
      SameTables(t, t.(lastSec := sec));
      LastSecIsApart(t, sec);
    }
  }

  lemma OkIsFramed(p: Pool)
    requires Ok(p)
    ensures Framed(p)
  {
  }

  lemma PassKeepsFlows(s: State, sec: nat)
    ensures CleanupPass(s, sec).flows == s.flows
  {
    hide CleanAll;
    hide FindExpired;
    FindExpiredFrame(s, sec);
    CleanAllFrame(FindExpired(s, sec), FindExpired(s, sec).main);
  }

  lemma LastSecIsApart(t: State, sec: nat)
    requires QueueOk(t)
    ensures QueueOk(t.(lastSec := sec))
  {
  }

  // ----- a packet of a known stream -----

  /** t keeps the pools, the maps and all that keys are made of. */
  ghost predicate SameRefs(s: State, t: State) {
    && SameKeys(s, t)
    && t.streamPool == s.streamPool && t.lanPool == s.lanPool && t.wanPool == s.wanPool
    && t.streamMap == s.streamMap && t.addrMap == s.addrMap && t.gone == s.gone
  }

  ghost predicate SameCounts(s: State, t: State) {
    |t.addrs| == |s.addrs| && forall a :: 0 <= a < |s.addrs| ==> t.addrs[a].nstreamsActive == s.addrs[a].nstreamsActive
  }

  lemma RefsTransfer(s: State, t: State)
    requires RefsOk(s) && MapAgrees(s) && EndsTaken(s, s.Live()) && AddrEntries(s) && SplitPools(s) && SameRefs(s, t)
    ensures RefsOk(t) && MapAgrees(t) && EndsTaken(t, t.Live()) && AddrEntries(t) && SplitPools(t)
  {
    forall i: nat | HasRefs(s, i)
      ensures HasRefs(t, i) && KeyOf(t, i) == KeyOf(s, i)
    {
      SameKeysKeyOf(s, t, i);
    }
    hide KeyOf;
    EntriesTransfer(s, t);
    hide AddrEntries;
  }

  lemma CountsTransfer(s: State, t: State, live: set<int>)
    requires CountsFor(s, live) && SameKeys(s, t) && SameCounts(s, t)
    ensures CountsFor(t, live)
  {
    forall a: nat | a < |s.addrs|
      ensures Endpoints(t.streams, live, a, |t.streams|) == Endpoints(s.streams, live, a, |s.streams|)
    {
      EndpointsCongruent(s.streams, t.streams, live, a, |s.streams|);
    }
  }

  lemma AddrCtrsShape(addrs: seq<AddrInfo>, l: nat, r: nat, flipped: bool, len: nat)
    requires l < |addrs| && r < |addrs|
    ensures forall a :: 0 <= a < |addrs| ==>
              var b := IncAddrCtrs(addrs, l, r, flipped, len)[a];
              b.addrOffset == addrs[a].addrOffset && b.nstreamsActive == addrs[a].nstreamsActive
  {
    hide U32;
  }

  lemma CountersShape(s: State, i: nat, flipped: bool, len: nat)
    requires HasRefs(s, i)
    ensures var t := IncStreamCounters(s, i, flipped, len);
            && SameRefs(s, t) && t.flows == s.flows
            && (forall j :: 0 <= j < |s.streams| && j != i ==> t.streams[j] == s.streams[j])
            && t.streams[i].packets == U32(s.streams[i].packets + 1)
            && (t.streams[i].packets != 1 ==> SameCounts(s, t))
            && (t.streams[i].packets == 1 ==> FirstCounted(s, t, i))
  {
    hide U32;
    hide U16;
    var ss := s.streams[i];
    var counted := if U32(ss.packets + 1) == 1 then IncActive(IncActive(s.addrs, ss.idxLeft), ss.idxRight) else s.addrs;
    AddrCtrsShape(counted, ss.idxLeft, ss.idxRight, flipped, len);
    hide IncAddrCtrs;
  }

  lemma NoteShape(s: State, i: nat, pkt: Packet)
    requires HasRefs(s, i)
    ensures var t := NoteFlags(s, i, pkt);
            && SameRefs(s, t) && t.flows == s.flows && t.addrs == s.addrs
            && (forall j :: 0 <= j < |s.streams| && j != i ==> t.streams[j] == s.streams[j])
            && t.streams[i].packets == s.streams[i].packets
  {
    hide HasCleanup;
  }

  /** The record changes of one counted packet: nothing that references are made of. */
  lemma TrackShape(s: State, i: nat, pkt: Packet, flipped: bool)
    requires HasRefs(s, i) && |s.flows| == 6
    ensures var t := Track(s, i, pkt, flipped);
            && SameRefs(s, t) && |t.flows| == 6 && |t.streams| == |s.streams| && |t.addrs| == |s.addrs|
            && (forall j :: 0 <= j < |s.streams| && j != i ==> t.streams[j] == s.streams[j])
            && t.streams[i].packets == U32(s.streams[i].packets + 1)
            && (t.streams[i].packets != 1 ==> SameCounts(s, t))
            && (t.streams[i].packets == 1 ==> FirstCounted(s, t, i))
  {
    var s1 := NoteFlags(s, i, pkt);
    NoteShape(s, i, pkt);
    CountersShape(s1, i, flipped, pkt.len);
    hide NoteFlags;
    hide IncStreamCounters;
    hide U32;
    hide IncActive;
  }

  /** The first packet counts the stream at both of its addresses. */
  ghost predicate FirstCounted(s: State, t: State, i: nat)
    requires HasRefs(s, i)
  {
    && |t.addrs| == |s.addrs|
    && var once := IncActive(IncActive(s.addrs, s.streams[i].idxLeft), s.streams[i].idxRight);
       forall a :: 0 <= a < |s.addrs| ==> t.addrs[a].nstreamsActive == once[a].nstreamsActive
  }

  /** A FIN or RST that queues stream i does not find it queued already, or finds the list full. */
  predicate FinFits(s: State, i: nat, pkt: Packet)
    requires i < |s.streams|
  {
    pkt.istcp && pkt.isfin && !HasCleanup(s.streams[i].flowflags) ==> !Queued(s, i) || ListFull(s, pkt.ts.sec)
  }

  /** Counting a packet keeps the queues exactly when its FIN or RST fits. */
  lemma TrackQueue(s: State, i: nat, pkt: Packet, flipped: bool)
    requires HasRefs(s, i) && |s.flows| == 6 && i in s.Live() && QueueOk(s)
    ensures QueueOk(Track(s, i, pkt, flipped)) <==> FinFits(s, i, pkt)
  {
    hide IncAddrCtrs;
    hide IncActive;
    hide HasCleanup;
    hide U32;
    EnqueueKeepsOnceIff(s, pkt.ts.sec, i);
    hide NoDup;
  }

  /** A packet of a stream in the map keeps the invariant exactly when the stream's packet counter has
      not wrapped to zero and the packet does not queue the stream a second time. */
  lemma TrackKnownStream(s: State, i: nat, pkt: Packet, flipped: bool)
    requires Inv(s) && i in s.Live()
    ensures HasRefs(s, i)
    ensures Inv(Track(s, i, pkt, flipped)) <==> s.streams[i].packets != 0 && FinFits(s, i, pkt)
  {
    hide Track;
    hide QueueOk;
    hide MapAgrees;
    hide AddrEntries;
    hide EndsTaken;
    hide SplitPools;
    hide CountsFor;
    hide Ok;
    hide SameKeys;
    hide RefsOk;
    hide WordSized;
    hide U32;
    hide FinFits;
    LiveStream(s, i);
    var t := Track(s, i, pkt, flipped);
    TrackShape(s, i, pkt, flipped);
    TrackQueue(s, i, pkt, flipped);
    RefsTransfer(s, t);
    StillWordSized(s, t, i);
    if s.streams[i].packets != 0 {
      CountsTransfer(s, t, s.Live());
    } else {
      RecountedAt(s, t, i, s.Live());
    }
  }

  /** A stream that is counted at its addresses again makes the counts wrong. */
  lemma RecountedAt(s: State, t: State, i: nat, live: set<int>)
    requires HasRefs(s, i) && CountsFor(s, live) && SameKeys(s, t) && FirstCounted(s, t, i)
    ensures !CountsFor(t, live)
  {
    var l := s.streams[i].idxLeft;
    EndpointsCongruent(s.streams, t.streams, live, l, |s.streams|);
    assert t.addrs[l].nstreamsActive != s.addrs[l].nstreamsActive;
  }

  lemma LiveStream(s: State, i: nat)
    requires RefsOk(s) && WordSized(s) && i in s.Live()
    ensures HasRefs(s, i) && s.streams[i].packets < 0x1_0000_0000
  {
  }

  lemma StillWordSized(s: State, t: State, i: nat)
    requires WordSized(s) && i < |s.streams| == |t.streams|
    requires forall j :: 0 <= j < |s.streams| && j != i ==> t.streams[j] == s.streams[j]
    requires t.streams[i].packets == U32(s.streams[i].packets + 1)
    ensures WordSized(t) && (t.streams[i].packets == 1 <==> s.streams[i].packets == 0)
  {
  }

  // ----- a new stream -----

  lemma {:induction false} NoEndpoints(streams: seq<StreamInfo>, live: set<int>, a: nat, n: nat)
    requires n <= |streams|
    requires forall i: nat :: i in live && i < n ==> streams[i].idxLeft != a && streams[i].idxRight != a
    ensures Endpoints(streams, live, a, n) == 0
  {
    if n > 0 {
      NoEndpoints(streams, live, a, n - 1);
    }
  }

  /** What holds of the address tables while streams in live refer to them. */
  ghost predicate AddrsOk(s: State, live: set<int>) {
    && ProductionPools(s) && EndsTaken(s, live) && CountsFor(s, live) && AddrEntries(s)
  }

  /** t differs from s in the address tables only, and there not in any taken slot. */
  ghost predicate AddrsGrew(s: State, t: State) {
    && t == s.(addrs := t.addrs, lanPool := t.lanPool, wanPool := t.wanPool, addrMap := t.addrMap, nextAddr := t.nextAddr)
    && |t.addrs| == |s.addrs|
    && (forall b :: b in s.LiveAddrs() ==> b in t.LiveAddrs())
    && (forall b :: 0 <= b < |s.addrs| && b in s.LiveAddrs() ==> t.addrs[b] == s.addrs[b])
    && (forall x :: x in s.addrMap ==> x in t.addrMap && t.addrMap[x] == s.addrMap[x])
  }

  /** An allocated slot was in neither pool. */
  lemma AllocIsFresh(s: State, lan: bool)
    requires ProductionPools(s)
    ensures var o := Alloc(if lan then s.lanPool else s.wanPool);
            o.Handed? ==>
              && o.idx !in s.LiveAddrs()
              && ProductionPools(if lan then s.(lanPool := o.pool) else s.(wanPool := o.pool))
              && o.pool.taken == (if lan then s.lanPool else s.wanPool).taken + {o.idx}
  {
    hide Alloc;
    hide Ok;
    PoolsAreDisjoint(s);
    AllocOk(s.lanPool);
    AllocOk(s.wanPool);
  }

  lemma AddrAllocOk(s: State, ip: Addr, ts: Tval, lan: bool, live: set<int>)
    requires AddrsOk(s, live) && ip !in s.addrMap
    ensures var r := AddrAlloc(s, ip, ts, lan);
            r.GotAddr? ==>
              && AddrsOk(r.state, live) && AddrsGrew(s, r.state)
              && r.idx < |r.state.addrs| && r.idx in r.state.LiveAddrs() && r.state.addrs[r.idx].addrOffset == ip
              && ip in r.state.addrMap
  {
    hide ProductionPools;
    hide EndsTaken;
    hide CountsFor;
    hide AddrEntries;
    hide AddrAlloc;
    var r := AddrAlloc(s, ip, ts, lan);
    if r.GotAddr? {
      AddrAllocShape(s, ip, ts, lan);
      NewSlotEnds(s, r.state, r.idx, live);
      NewEntry(s, r.state, r.idx, ip);
    }
  }

  lemma SamePools(s: State, t: State)
    requires ProductionPools(s) && t.lanPool == s.lanPool && t.wanPool == s.wanPool
    ensures ProductionPools(t)
  {
  }

  /** The new address sits in a slot that was free in both pools. */
  lemma AddrAllocShape(s: State, ip: Addr, ts: Tval, lan: bool)
    requires ProductionPools(s)
    ensures var r := AddrAlloc(s, ip, ts, lan);
            r.GotAddr? ==>
              var t, a := r.state, r.idx;
              && t == s.(addrs := t.addrs, lanPool := t.lanPool, wanPool := t.wanPool, addrMap := t.addrMap, nextAddr := t.nextAddr)
              && ProductionPools(t) && a !in s.LiveAddrs() && t.LiveAddrs() == s.LiveAddrs() + {a}
              && a < |s.addrs| && t.addrs == s.addrs[a := NewAddr(s, a, ip, ts, lan)] && t.addrMap == s.addrMap[ip := a]
  {
    hide ProductionPools;
    hide Alloc;
    hide NewAddr;
    AllocIsFresh(s, lan);
    var r := AddrAlloc(s, ip, ts, lan);
    if r.GotAddr? {
      var o := Alloc(if lan then s.lanPool else s.wanPool);
      SamePools(if lan then s.(lanPool := o.pool) else s.(wanPool := o.pool), r.state);
    }
  }

  lemma NewEntry(s: State, t: State, a: nat, ip: Addr)
    requires AddrEntries(s) && ip !in s.addrMap && t.addrMap == s.addrMap[ip := a] && t.gone == s.gone
    requires a < |s.addrs| == |t.addrs| && a !in s.LiveAddrs() && t.LiveAddrs() == s.LiveAddrs() + {a}
    requires t.addrs[a].addrOffset == ip
    requires forall b :: 0 <= b < |s.addrs| && b != a ==> t.addrs[b] == s.addrs[b]
    ensures AddrEntries(t)
  {
    forall x | x in t.addrMap
      ensures t.addrMap[x] < |t.addrs| && (Found(t, x) <==> Usable(t, x))
    {
      if x != ip {
        assert Found(s, x) <==> Usable(s, x);
        assert Found(t, x) <==> Found(s, x);
      }
    }
  }

  /** A slot no live stream refers to can be taken over with a zero count. */
  lemma NewSlotEnds(s: State, t: State, a: nat, live: set<int>)
    requires EndsTaken(s, live) && CountsFor(s, live) && a !in s.LiveAddrs() && a < |s.addrs| == |t.addrs|
    requires t.streams == s.streams && (forall b :: b in s.LiveAddrs() ==> b in t.LiveAddrs())
    requires t.addrs[a].nstreamsActive == 0
    requires forall b :: 0 <= b < |s.addrs| && b != a ==> t.addrs[b] == s.addrs[b]
    ensures EndsTaken(t, live) && CountsFor(t, live)
  {
    forall i: nat | i in live
      ensures s.streams[i].idxLeft != a && s.streams[i].idxRight != a
    {
    }
    NoEndpoints(s.streams, live, a, |s.streams|);
  }

  lemma AddrForOk(s: State, ip: Addr, ts: Tval, isLan: Addr -> bool, live: set<int>)
    requires AddrsOk(s, live) && Usable(s, ip)
    ensures var r := AddrFor(s, ip, ts, isLan);
            r.GotAddr? ==>
              && AddrsOk(r.state, live) && AddrsGrew(s, r.state)
              && r.idx < |r.state.addrs| && r.idx in r.state.LiveAddrs() && r.state.addrs[r.idx].addrOffset == ip
              && ip in r.state.addrMap
  {
    if ip !in s.addrMap {
      AddrAllocOk(s, ip, ts, isLan(ip), live);
      hide AddrAlloc;
    }
  }

  /** The state right after a stream was created in slot i and before its packet is counted. */
  ghost predicate JustCreated(s: State, c: State, i: nat, key: StreamKey) {
    && i !in s.Live() && c.Live() == s.Live() + {i} && HasRefs(c, i)
    && Ok(c.streamPool) && c.streamPool.idxMin == s.streamPool.idxMin && c.streamPool.total == s.streamPool.total
    && |c.streams| == |s.streams| && |c.addrs| == |s.addrs|
    && (forall j :: 0 <= j < |s.streams| && j != i ==> c.streams[j] == s.streams[j])
    && (forall b :: 0 <= b < |s.addrs| && b in s.LiveAddrs() ==> c.addrs[b] == s.addrs[b])
    && c.streamMap == s.streamMap[key := i]
    && c.main == s.main && c.wait == s.wait && c.flows == s.flows && c.gone == s.gone
    && (forall x :: x in s.addrMap ==> x in c.addrMap && c.addrMap[x] == s.addrMap[x])
    && AddrsOk(c, s.Live()) && NewEnds(c, i, key)
  }

  /** The new stream holds the fields of its key and refers to its two addresses. */
  ghost predicate NewEnds(c: State, i: nat, key: StreamKey)
    requires HasRefs(c, i)
  {
    var ss := c.streams[i];
    && ss.packets == 0 && ss.ipproto == key.ipproto && ss.lport == key.lport && ss.rport == key.rport
    && ss.idxLeft in c.LiveAddrs() && ss.idxRight in c.LiveAddrs()
    && c.addrs[ss.idxLeft].addrOffset == key.left && c.addrs[ss.idxRight].addrOffset == key.right
    && key.left in c.addrMap && key.right in c.addrMap
  }

  lemma CreateOk(s: State, pkt: Packet, key: StreamKey, isLan: Addr -> bool)
    requires RefsOk(s) && AddrsOk(s, s.Live()) && Ok(s.streamPool)
    requires Usable(s, key.left) && Usable(s, key.right)
    ensures var r := CreateStream(s, pkt, key, isLan);
            r.Made? ==> JustCreated(s, r.state, r.slot, key)
  {
    var r := CreateStream(s, pkt, key, isLan);
    if r.Made? {
      AllocOk(s.streamPool);
      hide Alloc;
      hide Ok;
      hide AddrFor;
      hide AddrsOk;
      hide AddrsGrew;
      hide FlowType;
      var i, pool := Alloc(s.streamPool).idx, Alloc(s.streamPool).pool;
      var s1 := s.(streamPool := pool, streamMap := s.streamMap[key := i]);
      PoolAndMapAreApart(s, s1, s.Live());
      BothAddrs(s1, key, pkt.ts, isLan, s.Live());
      var a1 := AddrFor(s1, key.left, pkt.ts, isLan);
      var a2 := AddrFor(a1.state, key.right, pkt.ts, isLan);
      Assemble(s, s1, a2.state, r.state, i, a1.idx, a2.idx, key);
    }
  }

  /** Both lookups, one after the other. */
  lemma BothAddrs(s: State, key: StreamKey, ts: Tval, isLan: Addr -> bool, live: set<int>)
    requires AddrsOk(s, live) && Usable(s, key.left) && Usable(s, key.right)
    ensures var a1 := AddrFor(s, key.left, ts, isLan);
            a1.GotAddr? ==>
              var a2 := AddrFor(a1.state, key.right, ts, isLan);
              a2.GotAddr? ==> AddrsOk(a2.state, live) && AddrsGrew(s, a2.state) && EndsFor(a2.state, a1.idx, a2.idx, key)
  {
    hide AddrFor;
    hide AddrsOk;
    AddrForOk(s, key.left, ts, isLan, live);
    var a1 := AddrFor(s, key.left, ts, isLan);
    if a1.GotAddr? {
      StaysUsable(s, a1.state, key.left, key.right, live);
      AddrForOk(a1.state, key.right, ts, isLan, live);
    }
  }

  /** Placing x leaves every usable address usable. */
  lemma StaysUsable(s: State, t: State, x: Addr, y: Addr, live: set<int>)
    requires AddrsOk(s, live) && AddrsGrew(s, t) && Usable(s, y)
    ensures Usable(t, y)
  {
  }

  ghost predicate EndsFor(t: State, l: nat, r: nat, key: StreamKey) {
    && l < |t.addrs| && r < |t.addrs| && l in t.LiveAddrs() && r in t.LiveAddrs()
    && t.addrs[l].addrOffset == key.left && t.addrs[r].addrOffset == key.right
    && key.left in t.addrMap && key.right in t.addrMap
  }

  lemma Assemble(s: State, s1: State, s3: State, c: State, i: nat, l: nat, r: nat, key: StreamKey)
    requires i !in s.Live() && i < |s.streams| && AddrsOk(s3, s.Live()) && AddrsGrew(s1, s3) && EndsFor(s3, l, r, key)
    requires s1 == s.(streamPool := s1.streamPool, streamMap := s.streamMap[key := i])
    requires s1.Live() == s.Live() + {i} && Ok(s1.streamPool)
    requires s1.streamPool.idxMin == s.streamPool.idxMin && s1.streamPool.total == s.streamPool.total
    requires |c.streams| == |s3.streams| && c == s3.(streams := s3.streams[i := c.streams[i]], nextStream := c.nextStream)
    requires var ss := c.streams[i];
             && ss.packets == 0 && ss.ipproto == key.ipproto && ss.lport == key.lport && ss.rport == key.rport
             && ss.idxLeft == l && ss.idxRight == r
    ensures JustCreated(s, c, i, key)
  {
    hide AddrsOk;
    hide Ok;
    StreamSlotIsApart(s3, c, i, s.Live());
  }

  lemma PoolAndMapAreApart(s: State, t: State, live: set<int>)
    requires AddrsOk(s, live) && t == s.(streamPool := t.streamPool, streamMap := t.streamMap)
    ensures AddrsOk(t, live)
  {
    EntriesTransfer(s, t);
    hide AddrEntries;
  }

  lemma StreamSlotIsApart(s: State, t: State, i: nat, live: set<int>)
    requires AddrsOk(s, live) && i !in live && i < |s.streams| == |t.streams|
    requires t == s.(streams := t.streams, nextStream := t.nextStream)
    requires forall j :: 0 <= j < |s.streams| && j != i ==> t.streams[j] == s.streams[j]
    ensures AddrsOk(t, live)
  {
    EntriesTransfer(s, t);
    hide AddrEntries;
    forall a: nat | a < |s.addrs|
      ensures Endpoints(t.streams, live, a, |t.streams|) == Endpoints(s.streams, live, a, |s.streams|)
    {
      EndpointsCongruent(s.streams, t.streams, live, a, |s.streams|);
    }
  }

  /** Creating a stream changes the key of no other stream. */
  lemma CreatedKeepsKey(s: State, c: State, i: nat, key: StreamKey, j: nat)
    requires EndsTaken(s, s.Live()) && JustCreated(s, c, i, key) && j in s.Live()
    ensures HasRefs(s, j) && HasRefs(c, j) && KeyOf(c, j) == KeyOf(s, j)
  {
    hide AddrsOk;
    hide Ok;
    hide InitV4;
  }

  lemma CreatedHasKey(s: State, c: State, i: nat, key: StreamKey)
    requires JustCreated(s, c, i, key) && InitV4(key.ipproto, key.Left(), key.Right()).0 == key
    ensures KeyOf(c, i) == key
  {
    hide AddrsOk;
    hide Ok;
    hide InitV4;
  }

  lemma CreatedMap(s: State, c: State, i: nat, key: StreamKey)
    requires RefsOk(s) && MapAgrees(s) && EndsTaken(s, s.Live()) && JustCreated(s, c, i, key) && key !in s.streamMap
    requires InitV4(key.ipproto, key.Left(), key.Right()).0 == key
    ensures RefsOk(c) && MapAgrees(c)
  {
    hide KeyOf;
    hide AddrsOk;
    hide Ok;
    hide EndsTaken;
    hide InitV4;
    hide NewEnds;
    forall j: nat | j in s.Live()
      ensures HasRefs(s, j) && HasRefs(c, j) && KeyOf(c, j) == KeyOf(s, j)
    {
      CreatedKeepsKey(s, c, i, key, j);
    }
    CreatedHasKey(s, c, i, key);
  }

  lemma CreatedEnds(s: State, c: State, i: nat, key: StreamKey)
    requires EndsTaken(s, s.Live()) && JustCreated(s, c, i, key)
    ensures EndsTaken(c, c.Live()) && SplitPools(c) && AddrEntries(c)
  {
    hide Ok;
    hide CountsFor;
    hide AddrEntries;
    ProductionIsSplit(c);
  }

  lemma {:induction false} EndpointsAdd(streams: seq<StreamInfo>, live: set<int>, i: nat, a: nat, n: nat)
    requires n <= |streams| && i < |streams| && i !in live
    ensures Endpoints(streams, live + {i}, a, n) == Endpoints(streams, live, a, n) + if i < n then Ends(streams[i], a) else 0
  {
    if n > 0 {
      EndpointsAdd(streams, live, i, a, n - 1);
    }
  }

  /** The members of live below n. */
  ghost function Below(live: set<int>, n: nat): set<int> {
    set i | i in live && 0 <= i < n
  }

  /** A stream has two endpoints. */
  lemma {:induction false} EndpointsAtMost(streams: seq<StreamInfo>, live: set<int>, a: nat, n: nat)
    requires n <= |streams|
    ensures Endpoints(streams, live, a, n) <= 2 * |Below(live, n)|
  {
    if n > 0 {
      EndpointsAtMost(streams, live, a, n - 1);
      var m: int := n - 1;
      assert Below(live, n) == Below(live, n - 1) + if m in live then {m} else {};
    }
  }

  /** Room for two more endpoints at each address: the stream table is too small to use up 16 bits. */
  lemma RoomForTwo(s: State, c: State, i: nat, key: StreamKey)
    requires Inv(s) && JustCreated(s, c, i, key)
    ensures forall a: nat :: a < |c.addrs| ==> Endpoints(c.streams, s.Live(), a, |c.streams|) + 2 < 0x1_0000
  {
    LiveCount(s, c, i, key);
    forall a: nat | a < |c.addrs|
      ensures Endpoints(c.streams, s.Live(), a, |c.streams|) + 2 < 0x1_0000
    {
      EndpointsAtMost(c.streams, s.Live(), a, |c.streams|);
    }
  }

  lemma LiveCount(s: State, c: State, i: nat, key: StreamKey)
    requires Inv(s) && JustCreated(s, c, i, key)
    ensures |Below(s.Live(), |c.streams|)| == |s.Live()| <= NUM_STREAMS - 2
  {
    hide KeyOf;
    hide AddrsOk;
    hide AddrEntries;
    hide MapAgrees;
    hide QueueOk;
    hide ProductionPools;
    var p := c.streamPool;
    BoundedSize(p.taken, p.LowEnd(), p.HighEnd());
    assert c.Live() == s.Live() + {i as int};
    assert Below(s.Live(), |c.streams|) == s.Live();
  }

  /** Counting the first packet makes up for the new stream's endpoints. */
  lemma FirstPacketCounts(c: State, t: State, i: nat, live: set<int>)
    requires HasRefs(c, i) && i !in live && CountsFor(c, live) && SameKeys(c, t) && FirstCounted(c, t, i)
    requires forall a: nat :: a < |c.addrs| ==> Endpoints(c.streams, live, a, |c.streams|) + 2 < 0x1_0000
    ensures CountsFor(t, live + {i})
  {
    forall a: nat | a < |c.addrs|
      ensures t.addrs[a].nstreamsActive == Endpoints(t.streams, live + {i}, a, |t.streams|) < 0x1_0000
    {
      EndpointsAdd(c.streams, live, i, a, |c.streams|);
      EndpointsCongruent(c.streams, t.streams, live + {i}, a, |c.streams|);
    }
  }

  /** A new stream is not queued. */
  lemma CreatedQueue(s: State, c: State, i: nat, key: StreamKey, pkt: Packet)
    requires QueueOk(s) && JustCreated(s, c, i, key)
    ensures QueueOk(c) && FinFits(c, i, pkt)
  {
    hide AddrsOk;
    hide Ok;
    hide NoDup;
    hide HasCleanup;
    assert !Queued(s, i);
  }

  /** The first packet of a new stream keeps the invariant. */
  lemma TrackNewStream(s: State, c: State, i: nat, key: StreamKey, pkt: Packet, flipped: bool)
    requires Inv(s) && key !in s.streamMap && JustCreated(s, c, i, key)
    requires InitV4(key.ipproto, key.Left(), key.Right()).0 == key
    ensures |c.flows| == 6 && Inv(Track(c, i, pkt, flipped))
  {
    hide KeyOf;
    hide Track;
    hide Ok;
    hide MapAgrees;
    hide EndsTaken;
    hide SplitPools;
    hide AddrEntries;
    hide CountsFor;
    hide QueueOk;
    hide SameKeys;
    hide FirstCounted;
    hide FinFits;
    CreatedMap(s, c, i, key);
    CreatedEnds(s, c, i, key);
    CreatedQueue(s, c, i, key, pkt);
    RoomForTwo(s, c, i, key);
    var t := Track(c, i, pkt, flipped);
    TrackShape(c, i, pkt, flipped);
    TrackQueue(c, i, pkt, flipped);
    RefsTransfer(c, t);
    FirstPacketCounts(c, t, i, s.Live());
    CreatedWordSized(s, c, i, key);
    StillWordSized(c, t, i);
  }

  lemma CreatedWordSized(s: State, c: State, i: nat, key: StreamKey)
    requires WordSized(s) && JustCreated(s, c, i, key)
    ensures WordSized(c) && c.streams[i].packets == 0
  {
    hide AddrsOk;
    hide Ok;
  }

  // ----- every packet -----

  /** What a packet must not do: bring back an address whose slot was released, count on a stream whose
      packet counter wrapped to zero, or queue a stream that is queued already. */
  ghost predicate Admissible(s: State, pkt: Packet) {
    var key := InitV4(pkt.ipproto, pkt.src, pkt.dst).0;
    if key in s.streamMap
    then s.streamMap[key] < |s.streams| ==>
           s.streams[s.streamMap[key]].packets != 0 && FinFits(s, s.streamMap[key], pkt)
    else Usable(s, key.left) && Usable(s, key.right)
  }

  lemma FlowsAreApart(s: State, t: State)
    requires Inv(s) && |t.flows| == 6 && t == s.(flows := t.flows, refused := t.refused)
    ensures Inv(t)
  {
    hide Ok;
    forall i: nat | HasRefs(s, i)
      ensures HasRefs(t, i) && KeyOf(t, i) == KeyOf(s, i)
    {
    }
    hide KeyOf;
    EntriesTransfer(s, t);
    hide AddrEntries;
  }

  lemma RecordKeepsInv(s: State, pkt: Packet, isLan: Addr -> bool)
    requires Inv(s) && Admissible(s, pkt) && Record(s, pkt, isLan).Next?
    ensures Inv(Record(s, pkt, isLan).state)
  {
    hide InitV4;
    hide Bump;
    hide Track;
    hide CreateStream;
    hide Linked;
    hide QueueOk;
    hide PoolsOk;
    hide JustCreated;
    hide HasCleanup;
    var (key, flipped) := InitV4(pkt.ipproto, pkt.src, pkt.dst);
    RebuiltKey(pkt.ipproto, pkt.src, pkt.dst);
    var s1 := s.(flows := Bump(s.flows, FLOW_TYPE_TOTAL, pkt.len));
    FlowsAreApart(s, s1);
    if !(key.left == 0 || key.right == 0) {
      if key in s.streamMap {
        KnownIsLive(s1, key);
        TrackKnownStream(s1, s1.streamMap[key], pkt, flipped);
      } else {
        var r := CreateStream(s1, pkt, key, isLan);
        if r.Made? {
          InvGivesAddrs(s1);
          CreateOk(s1, pkt, key, isLan);
          TrackNewStream(s1, r.state, r.slot, key, pkt, flipped);
        } else {
          FlowsAreApart(s1, Record(s, pkt, isLan).state);
        }
      }
    }
  }

  lemma KnownIsLive(s: State, key: StreamKey)
    requires Inv(s) && key in s.streamMap
    ensures s.streamMap[key] in s.Live() && HasRefs(s, s.streamMap[key])
  {
    hide KeyOf;
    hide Ok;
  }

  lemma InvGivesAddrs(s: State)
    requires Inv(s)
    ensures RefsOk(s) && AddrsOk(s, s.Live()) && Ok(s.streamPool)
  {
    hide KeyOf;
    hide Ok;
  }

  // ----- every run -----

  /** The hypotheses a run must meet at each packet: it is admissible, and if it starts a cleanup
      pass then the pass fits. */
  ghost predicate StepFits(s: State, pkt: Packet, isLan: Addr -> bool) {
    && Admissible(s, pkt)
    && (|s.flows| == 6 && Record(s, pkt, isLan).Next? && Record(s, pkt, isLan).verdict.Counted? ==>
          SweepFits(Record(s, pkt, isLan).state, pkt.ts.sec))
  }

  ghost predicate RunFits(pkts: seq<Packet>, isLan: Addr -> bool) {
    forall k :: 0 <= k < |pkts| && RunPackets(pkts[..k], isLan).Running? ==> StepFits(RunPackets(pkts[..k], isLan).state, pkts[k], isLan)
  }

  lemma InitialInv()
    ensures Inv(InitialState())
  {
    var s := InitialState();
    assert s.Live() == {} && s.LiveAddrs() == {};
    forall a: nat | a < |s.addrs|
      ensures Endpoints(s.streams, {}, a, |s.streams|) == 0
    {
      NoEndpoints(s.streams, {}, a, |s.streams|);
    }
  }

  lemma StepKeepsInv(s: State, pkt: Packet, isLan: Addr -> bool)
    requires Inv(s) && StepFits(s, pkt, isLan) && |s.flows| == 6 && OnPacket(s, pkt, isLan).Next?
    ensures Inv(OnPacket(s, pkt, isLan).state)
  {
    hide Inv;
    hide Record;
    hide Sweep;
    hide Admissible;
    hide SweepFits;
    RecordKeepsInv(s, pkt, isLan);
    var r := Record(s, pkt, isLan);
    if r.verdict.Counted? {
      SweepKeepsInv(r.state, pkt.ts.sec);
    }
  }

  // ----- returning addresses -----

  /** A created stream refers to the entries of its addresses; entries that were there stay. */
  lemma CreateMaps(s: State, pkt: Packet, key: StreamKey, isLan: Addr -> bool)
    ensures var r := CreateStream(s, pkt, key, isLan);
            r.Made? ==>
              var c := r.state;
              && HasRefs(c, r.slot) && c.gone == s.gone && key in c.streamMap && c.streamMap[key] == r.slot
              && key.left in c.addrMap && c.streams[r.slot].idxLeft == c.addrMap[key.left]
              && key.right in c.addrMap && c.streams[r.slot].idxRight == c.addrMap[key.right]
              && c.streams[r.slot].lport == key.lport && c.streams[r.slot].rport == key.rport
              && (forall x :: x in s.addrMap ==> x in c.addrMap && c.addrMap[x] == s.addrMap[x])
  {
    hide Alloc;
    hide AddrFor;
    hide FlowType;
    var r := CreateStream(s, pkt, key, isLan);
    if r.Made? {
      var s1 := s.(streamPool := Alloc(s.streamPool).pool, streamMap := s.streamMap[key := r.slot]);
      AddrForMaps(s1, key.left, pkt.ts, isLan);
      AddrForMaps(AddrFor(s1, key.left, pkt.ts, isLan).state, key.right, pkt.ts, isLan);
    }
  }

  lemma AddrForMaps(s: State, ip: Addr, ts: Tval, isLan: Addr -> bool)
    ensures var r := AddrFor(s, ip, ts, isLan);
            r.GotAddr? ==>
              && ip in r.state.addrMap && r.state.addrMap[ip] == r.idx && r.state.gone == s.gone
              && r.state.streams == s.streams && r.state.streamMap == s.streamMap && |r.state.addrs| == |s.addrs|
              && (forall x :: x in s.addrMap ==> x in r.state.addrMap && r.state.addrMap[x] == s.addrMap[x])
  {
    hide Alloc;
  }

  /** A stream that the map finds under its key refers to slots that hold the two addresses. */
  lemma KeyTellsSlots(t: State, i: nat, key: StreamKey)
    requires HasRefs(t, i) && AddrEntries(t) && KeyOf(t, i) == key
    requires t.streams[i].idxLeft in t.LiveAddrs() && t.streams[i].idxRight in t.LiveAddrs()
    requires key.left in t.addrMap && t.streams[i].idxLeft == t.addrMap[key.left]
    requires key.right in t.addrMap && t.streams[i].idxRight == t.addrMap[key.right]
    ensures Usable(t, key.left) && Usable(t, key.right)
  {
    var l, r := t.streams[i].idxLeft, t.streams[i].idxRight;
    assert t.addrs[l].addrOffset in {key.left, key.right} && t.addrs[r].addrOffset in {key.left, key.right};
    assert Found(t, key.left) && Found(t, key.right);
  }

  /** The first packet of a new stream keeps the invariant exactly when both of its addresses are
      usable: none of them was released before from a slot other than 256. */
  lemma NewStreamKeepsInvIff(s: State, pkt: Packet, isLan: Addr -> bool)
    requires Inv(s) && |s.flows| == 6 && Record(s, pkt, isLan).Next? && Record(s, pkt, isLan).verdict.Counted?
    requires InitV4(pkt.ipproto, pkt.src, pkt.dst).0 !in s.streamMap
    ensures var key := InitV4(pkt.ipproto, pkt.src, pkt.dst).0;
            Inv(Record(s, pkt, isLan).state) <==> Usable(s, key.left) && Usable(s, key.right)
  {
    var (key, flipped) := InitV4(pkt.ipproto, pkt.src, pkt.dst);
    if Usable(s, key.left) && Usable(s, key.right) {
      RecordKeepsInv(s, pkt, isLan);
    }
    hide InitV4;
    hide CreateStream;
    hide Track;
    hide Bump;
    hide KeyOf;
    hide Inv;
    var t := Record(s, pkt, isLan).state;
    if Inv(t) {
      var s1 := s.(flows := Bump(s.flows, FLOW_TYPE_TOTAL, pkt.len));
      var r := CreateStream(s1, pkt, key, isLan);
      CreateMaps(s1, pkt, key, isLan);
      TrackShape(r.state, r.slot, pkt, flipped);
      SettledEnds(t, key);
      KeyTellsSlots(t, r.slot, key);
      GoneIsKnown(s);
    }
  }

  /** A counted packet keeps the invariant exactly when it is admissible. */
  lemma RecordKeepsInvIff(s: State, pkt: Packet, isLan: Addr -> bool)
    requires Inv(s) && |s.flows| == 6 && Record(s, pkt, isLan).Next? && Record(s, pkt, isLan).verdict.Counted?
    ensures Inv(Record(s, pkt, isLan).state) <==> Admissible(s, pkt)
  {
    hide Inv;
    hide InitV4;
    hide Track;
    hide CreateStream;
    hide Bump;
    hide FinFits;
    hide Usable;
    var (key, flipped) := InitV4(pkt.ipproto, pkt.src, pkt.dst);
    if key in s.streamMap {
      var s1 := s.(flows := Bump(s.flows, FLOW_TYPE_TOTAL, pkt.len));
      FlowsAreApart(s, s1);
      KnownIsLive(s1, key);
      TrackKnownStream(s1, s1.streamMap[key], pkt, flipped);
      FinFitsAlike(s, s1, s1.streamMap[key], pkt);
    } else {
      NewStreamKeepsInvIff(s, pkt, isLan);
    }
  }

  lemma FinFitsAlike(s: State, t: State, i: nat, pkt: Packet)
    requires i < |s.streams| && t == s.(flows := t.flows)
    ensures FinFits(t, i, pkt) <==> FinFits(s, i, pkt)
  {
    hide HasCleanup;
  }

  lemma SettledEnds(t: State, key: StreamKey)
    requires Inv(t) && key in t.streamMap
    ensures var i := t.streamMap[key];
            && HasRefs(t, i) && AddrEntries(t) && KeyOf(t, i) == key
            && t.streams[i].idxLeft in t.LiveAddrs() && t.streams[i].idxRight in t.LiveAddrs()
  {
    hide KeyOf;
    hide Ok;
    hide AddrEntries;
    KnownIsLive(t, key);
  }

  lemma GoneIsKnown(s: State)
    requires Inv(s)
    ensures forall x :: x in s.gone ==> x in s.addrMap
  {
    hide KeyOf;
    hide Ok;
  }

  // ----- what stops a run -----

  /** How many slots of the pool that x belongs to are taken, and with how many taken the next one is
      refused or lies outside the table. */
  function TakenFor(s: State, lan: bool): nat {
    |(if lan then s.lanPool else s.wanPool).taken|
  }

  function Limit(lan: bool): nat {
    if lan then 256 else 16127
  }

  /** A new stream with this key cannot be placed: all but the last stream slot are taken, or one of
      its addresses is unknown while the slots of its pool are used up, the right one after the left. */
  predicate NoRoomFor(s: State, key: StreamKey, isLan: Addr -> bool) {
    var l, r := key.left, key.right;
    || |s.Live()| == 32767
    || (l !in s.addrMap && TakenFor(s, isLan(l)) == Limit(isLan(l)))
    || (r !in s.addrMap && r != l
        && TakenFor(s, isLan(r)) + (if l !in s.addrMap && isLan(l) == isLan(r) then 1 else 0) == Limit(isLan(r)))
  }

  /** All address slots in use are in the table. */
  ghost predicate AddrsFit(s: State) {
    && ProductionPools(s) && |s.addrs| == NUM_ADDRS
    && (forall a :: a in s.LiveAddrs() ==> a < |s.addrs|)
    && (forall x :: x in s.addrMap ==> s.addrMap[x] < |s.addrs|)
  }

  /** A new address is refused exactly at the limit of its pool. */
  lemma AddrAllocFailsIff(s: State, ip: Addr, ts: Tval, lan: bool)
    requires AddrsFit(s)
    ensures AddrAlloc(s, ip, ts, lan).GotAddr? <==> TakenFor(s, lan) != Limit(lan)
  {
    hide Alloc;
    PoolsAreDisjoint(s);
    if lan {
      AllocOk(s.lanPool);
    } else {
      LastSlotComesLast(s.wanPool);
      AllocOk(s.wanPool);
    }
    hide Ok;
  }

  lemma AddrForCounts(s: State, ip: Addr, ts: Tval, isLan: Addr -> bool)
    requires AddrsFit(s)
    ensures var r := AddrFor(s, ip, ts, isLan);
            && (r.GotAddr? <==> ip in s.addrMap || TakenFor(s, isLan(ip)) != Limit(isLan(ip)))
            && (r.GotAddr? ==>
                  && AddrsFit(r.state) && r.idx < |r.state.addrs| && r.state.streams == s.streams
                  && r.state.addrMap.Keys == s.addrMap.Keys + {ip}
                  && (forall lan :: TakenFor(r.state, lan)
                        == TakenFor(s, lan) + if ip !in s.addrMap && lan == isLan(ip) then 1 else 0))
  {
    hide AddrAlloc;
    hide ProductionPools;
    hide TakenFor;
    if ip !in s.addrMap {
      AddrAllocFailsIff(s, ip, ts, isLan(ip));
      var r := AddrAlloc(s, ip, ts, isLan(ip));
      if r.GotAddr? {
        AddrAllocShape(s, ip, ts, isLan(ip));
        AddrAllocCounts(s, ip, ts, isLan(ip));
        assert r.state.addrMap.Keys == s.addrMap.Keys + {ip};
      }
    }
  }

  lemma AddrAllocCounts(s: State, ip: Addr, ts: Tval, lan: bool)
    requires ProductionPools(s)
    ensures var r := AddrAlloc(s, ip, ts, lan);
            r.GotAddr? ==>
              forall b :: TakenFor(r.state, b) == TakenFor(s, b) + if b == lan then 1 else 0
  {
    hide Alloc;
    hide Ok;
    AllocOk(s.lanPool);
    AllocOk(s.wanPool);
  }

  /** A stream slot is always handed out, and it is outside the table exactly when all others are
      taken. */
  lemma StreamAllocFits(s: State)
    requires Inv(s)
    ensures Alloc(s.streamPool).Handed? && |s.Live()| <= NUM_STREAMS - 1
    ensures Alloc(s.streamPool).idx >= |s.streams| <==> |s.Live()| == NUM_STREAMS - 1
  {
    hide KeyOf;
    hide AddrEntries;
    hide MapAgrees;
    hide QueueOk;
    hide ProductionPools;
    hide Alloc;
    LastSlotComesLast(s.streamPool);
    AllocOk(s.streamPool);
  }

  lemma CreateFailsIff(s: State, pkt: Packet, key: StreamKey, isLan: Addr -> bool)
    requires Inv(s)
    ensures CreateStream(s, pkt, key, isLan).CreateFault? <==> NoRoomFor(s, key, isLan)
    ensures !CreateStream(s, pkt, key, isLan).NoSlot?
  {
    StreamAllocFits(s);
    InvAddrsFit(s);
    hide Inv;
    hide Alloc;
    hide AddrFor;
    hide AddrsFit;
    hide FlowType;
    hide TakenFor;
    var o := Alloc(s.streamPool);
    var s1 := s.(streamPool := o.pool, streamMap := s.streamMap[key := o.idx]);
    SameAddrs(s, s1);
    AddrForCounts(s1, key.left, pkt.ts, isLan);
    var a1 := AddrFor(s1, key.left, pkt.ts, isLan);
    if a1.GotAddr? {
      AddrForCounts(a1.state, key.right, pkt.ts, isLan);
      if AddrFor(a1.state, key.right, pkt.ts, isLan).GotAddr? {
        AddrsKept(a1.state, key.right, pkt.ts, isLan);
      }
    }
  }

  lemma AddrsKept(s: State, ip: Addr, ts: Tval, isLan: Addr -> bool)
    ensures var r := AddrFor(s, ip, ts, isLan); r.GotAddr? ==> |r.state.addrs| == |s.addrs|
  {
    hide Alloc;
  }

  lemma SameAddrs(s: State, t: State)
    requires AddrsFit(s) && t == s.(streamPool := t.streamPool, streamMap := t.streamMap)
    ensures AddrsFit(t) && forall lan :: TakenFor(t, lan) == TakenFor(s, lan)
  {
    hide Ok;
  }

  lemma InvAddrsFit(s: State)
    requires Inv(s)
    ensures AddrsFit(s)
  {
    hide KeyOf;
    hide Ok;
  }

  /** Once a packet was counted nothing can go wrong any more: the pass stays inside the table.  What
      stops a run is a new stream for which the counts leave no room, and no packet is refused. */
  lemma FaultIffNoRoom(s: State, pkt: Packet, isLan: Addr -> bool)
    requires Inv(s)
    ensures |s.flows| == 6
    ensures var key := InitV4(pkt.ipproto, pkt.src, pkt.dst).0;
            OnPacket(s, pkt, isLan).Fault? <==>
              key.left != 0 && key.right != 0 && key !in s.streamMap && NoRoomFor(s, key, isLan)
    ensures OnPacket(s, pkt, isLan).Next? ==> !OnPacket(s, pkt, isLan).verdict.Refused?
  {
    hide InitV4;
    hide CreateStream;
    hide Track;
    hide Bump;
    hide Sweep;
    hide Linked;
    hide QueueOk;
    hide PoolsOk;
    var key := InitV4(pkt.ipproto, pkt.src, pkt.dst).0;
    var s1 := s.(flows := Bump(s.flows, FLOW_TYPE_TOTAL, pkt.len));
    FlowsAreApart(s, s1);
    if key in s.streamMap {
      KnownIsLive(s, key);
    } else {
      CreateFailsIff(s1, pkt, key, isLan);
    }
    CreateShape(s1, pkt, key, isLan);
    RecordStaysInside(s, pkt, isLan);
  }

  /** Whatever the packet, the window of the stream pool still ends inside the table. */
  lemma RecordStaysInside(s: State, pkt: Packet, isLan: Addr -> bool)
    requires Inv(s) && |s.flows| == 6
    ensures var r := Record(s, pkt, isLan); r.Next? ==> r.state.streamPool.hi <= |r.state.streams|
  {
    hide InitV4;
    hide CreateStream;
    hide Track;
    hide Bump;
    var (key, flipped) := InitV4(pkt.ipproto, pkt.src, pkt.dst);
    var s1 := s.(flows := Bump(s.flows, FLOW_TYPE_TOTAL, pkt.len));
    FlowsAreApart(s, s1);
    WindowInTable(s1);
    CreateKeepsWindow(s1, pkt, key, isLan);
    CreateShape(s1, pkt, key, isLan);
    hide Inv;
    hide NoRoomFor;
    if key.left != 0 && key.right != 0 {
      if key in s.streamMap {
        if HasRefs(s1, s.streamMap[key]) {
          TrackShape(s1, s.streamMap[key], pkt, flipped);
        }
      } else {
        var r := CreateStream(s1, pkt, key, isLan);
        if r.Made? {
          TrackShape(r.state, r.slot, pkt, flipped);
        }
      }
    }
  }

  lemma CreateKeepsWindow(s: State, pkt: Packet, key: StreamKey, isLan: Addr -> bool)
    requires Inv(s)
    ensures var r := CreateStream(s, pkt, key, isLan);
            r.Made? ==> r.state.streamPool.hi <= |r.state.streams|
  {
    hide AddrFor;
    hide Alloc;
    hide FlowType;
    var r := CreateStream(s, pkt, key, isLan);
    if r.Made? {
      AllocOk(s.streamPool);
      AllocStaysInside(s, Alloc(s.streamPool).pool, r.slot);
      hide Inv;
      var s1 := s.(streamPool := Alloc(s.streamPool).pool, streamMap := s.streamMap[key := r.slot]);
      AddrForKeepsStreams(s1, key.left, pkt.ts, isLan);
      AddrForKeepsStreams(AddrFor(s1, key.left, pkt.ts, isLan).state, key.right, pkt.ts, isLan);
    }
  }

  lemma AddrForKeepsStreams(s: State, ip: Addr, ts: Tval, isLan: Addr -> bool)
    ensures var r := AddrFor(s, ip, ts, isLan);
            r.GotAddr? ==> r.state.streams == s.streams && r.state.streamPool == s.streamPool
  {
    hide Alloc;
  }

  lemma AllocStaysInside(s: State, p: Pool, i: nat)
    requires Inv(s) && Ok(p) && i < |s.streams| && p.taken == s.Live() + {i}
    requires p.idxMin == s.streamPool.idxMin && p.total == s.streamPool.total
    ensures p.hi <= |s.streams|
  {
    hide KeyOf;
    hide AddrEntries;
    hide MapAgrees;
    hide QueueOk;
    hide ProductionPools;
  }

  lemma CreateShape(s: State, pkt: Packet, key: StreamKey, isLan: Addr -> bool)
    ensures var r := CreateStream(s, pkt, key, isLan);
            r.Made? ==> HasRefs(r.state, r.slot) && r.state.flows == s.flows
  {
    hide Alloc;
    hide AddrFor;
    hide FlowType;
    var r := CreateStream(s, pkt, key, isLan);
    if r.Made? {
      var s1 := s.(streamPool := Alloc(s.streamPool).pool, streamMap := s.streamMap[key := r.slot]);
      AddrForKeeps(s1, key.left, pkt.ts, isLan);
      AddrForKeeps(AddrFor(s1, key.left, pkt.ts, isLan).state, key.right, pkt.ts, isLan);
    }
  }

  /** All taken slots are in the table and the window is tight, so it ends inside the table. */
  lemma WindowInTable(s: State)
    requires Inv(s)
    ensures s.streamPool.hi <= |s.streams|
  {
    hide KeyOf;
  }

  /** On every run that is fed by FIN and RST alone, with anchored releases and no returning
      address, every queued stream is live, flagged and queued once, the counts equal the live
      endpoints, and the lookup map holds exactly the keys of the live streams. */
  lemma {:induction false} EveryRunKeepsInv(pkts: seq<Packet>, isLan: Addr -> bool)
    requires RunFits(pkts, isLan)
    ensures RunPackets(pkts, isLan).Running? ==> Inv(RunPackets(pkts, isLan).state)
    decreases |pkts|
  {
    if pkts == [] {
      InitialInv();
    } else {
      hide Inv;
      hide OnPacket;
      hide StepFits;
      hide InitialState;
      var n := |pkts| - 1;
      RunFitsBefore(pkts, isLan);
      EveryRunKeepsInv(pkts[..n], isLan);
      var o := RunPackets(pkts[..n], isLan);
      if o.Running? && |o.state.flows| == 6 && OnPacket(o.state, pkts[n], isLan).Next? {
        StepKeepsInv(o.state, pkts[n], isLan);
      }
    }
  }

  /** On every run that fits, an address entry leads to a taken slot that holds the address exactly
      when shm_addr_free was never called for it, or for slot 256. */
  lemma EveryRunFindsIffUsable(pkts: seq<Packet>, isLan: Addr -> bool, x: Addr)
    requires RunFits(pkts, isLan) && RunPackets(pkts, isLan).Running?
    requires x in RunPackets(pkts, isLan).state.addrMap
    ensures var s := RunPackets(pkts, isLan).state;
            Found(s, x) <==> x !in s.gone || s.addrMap[x] == LAN_SIZE
  {
    EveryRunKeepsInv(pkts, isLan);
    hide RunPackets;
    hide KeyOf;
    hide Ok;
  }

  lemma RunFitsBefore(pkts: seq<Packet>, isLan: Addr -> bool)
    requires RunFits(pkts, isLan) && pkts != []
    ensures RunFits(pkts[..|pkts| - 1], isLan)
  {
    hide StepFits;
    hide RunPackets;
    var before := pkts[..|pkts| - 1];
    forall k | 0 <= k < |before| && RunPackets(before[..k], isLan).Running?
      ensures StepFits(RunPackets(before[..k], isLan).state, before[k], isLan)
    {
      assert before[..k] == pkts[..k];
    }
  }

  /** The counts survive a packet of a live stream exactly when its packet counter is not zero: a
      stream whose counter wrapped is counted at its addresses again. */
  lemma CountsSurviveIff(s: State, i: nat, flipped: bool, len: nat)
    requires RefsOk(s) && CountsFor(s, s.Live()) && i in s.Live() && s.streams[i].packets < WORD32
    ensures HasRefs(s, i)
    ensures CountsFor(IncStreamCounters(s, i, flipped, len), s.Live()) <==> s.streams[i].packets != 0
  {
    assert HasRefs(s, i);
    CountersShape(s, i, flipped, len);
    var t, l := IncStreamCounters(s, i, flipped, len), s.streams[i].idxLeft;
    hide IncStreamCounters;
    if s.streams[i].packets != 0 {
      assert t.streams[i].packets != 1;
      CountsTransfer(s, t, s.Live());
    } else {
      EndpointsCongruent(s.streams, t.streams, s.Live(), l, |s.streams|);
      assert t.addrs[l].nstreamsActive != s.addrs[l].nstreamsActive;
    }
  }
}
