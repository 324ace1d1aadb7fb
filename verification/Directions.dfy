// Which way a packet goes: a stream keeps its key's left and right, so the flipped flag of a later
// packet tells which of the two address slots sent it.
module Directions {
  import opened Words
  import opened SlotPool
  import opened StreamKeys
  import opened Structs
  import opened Lifecycle
  import opened Capture
  import opened Tenancy

  /** Stream i refers to its key's left endpoint on the left and to the right one on the right. */
  ghost predicate OrientedAt(s: State, i: nat)
    requires HasRefs(s, i)
  {
    var ss, key := s.streams[i], KeyOf(s, i);
    && key.ipproto == ss.ipproto
    && key.Left() == Endpoint(s.addrs[ss.idxLeft].addrOffset, ss.lport)
    && key.Right() == Endpoint(s.addrs[ss.idxRight].addrOffset, ss.rport)
  }

  ghost predicate Oriented(s: State) {
    forall i: nat :: i in s.Live() && HasRefs(s, i) ==> OrientedAt(s, i)
  }

  /** Orientation depends on what keys are made of. */
  lemma SameKeysOriented(s: State, t: State)
    requires RefsOk(s) && Oriented(s) && SameKeys(s, t) && t.Live() <= s.Live()
    ensures Oriented(t)
  {
    forall i: nat | i in t.Live() && HasRefs(t, i)
      ensures OrientedAt(t, i)
    {
      assert HasRefs(s, i) && OrientedAt(s, i);
      SameKeysKeyOf(s, t, i);
      hide KeyOf;
    }
  }

  lemma TrackOriented(s: State, i: nat, pkt: Packet, flipped: bool)
    requires RefsOk(s) && Oriented(s) && HasRefs(s, i) && |s.flows| == 6
    ensures Oriented(Track(s, i, pkt, flipped))
  {
    TrackShape(s, i, pkt, flipped);
    hide Track;
    SameKeysOriented(s, Track(s, i, pkt, flipped));
  }

  /** t has no slot in either address pool that s has not. */
  ghost predicate Shrunk(s: State, t: State) {
    t.lanPool.taken <= s.lanPool.taken && t.wanPool.taken <= s.wanPool.taken
  }

  lemma ReleaseAddrsShrinks(s: State, l: nat, r: nat)
    requires l < |s.addrs| && r < |s.addrs|
    ensures Shrunk(s, ReleaseAddrs(s, l, r))
  {
    hide AddrFree;
    hide DecActive;
    var addrs := DecActive(DecActive(s.addrs, l), r);
    var s1 := s.(addrs := addrs);
    AddrFreeShrinks(s1, l);
    var s2 := if addrs[l].nstreamsActive == 0 then AddrFree(s1, l) else s1;
    AddrFreeShrinks(s2, r);
  }

  lemma AddrFreeShrinks(s: State, a: nat)
    ensures Shrunk(s, AddrFree(s, a))
  {
    hide Free;
    FreeDropsAtMost(s.lanPool, a);
    FreeDropsAtMost(s.wanPool, a);
    var t := AddrFree(s, a);
    assert forall b :: b in t.lanPool.taken ==> b in s.lanPool.taken;
    assert forall b :: b in t.wanPool.taken ==> b in s.wanPool.taken;
  }

  lemma {:induction false} CleanAllShrinks(s: State, slots: seq<nat>)
    ensures Shrunk(s, CleanAll(s, slots)) && CleanAll(s, slots).Live() <= s.Live()
    decreases |slots|
  {
    if slots != [] {
      var i := slots[|slots| - 1];
      CleanAllShrinks(s, slots[..|slots| - 1]);
      var t := CleanAll(s, slots[..|slots| - 1]);
      hide ReleaseAddrs;
      hide KeyOf;
      hide Free;
      FreeDropsAtMost(t.streamPool, i);
      if HasRefs(t, i) {
        ReleaseAddrsShrinks(t.(streamMap := t.streamMap - {KeyOf(t, i)}), t.streams[i].idxLeft, t.streams[i].idxRight);
      }
    }
  }

  /** A sweep is the release loop, or nothing, as far as tables and pools go. */
  lemma SweepIsRelease(s: State, sec: nat)
    ensures var t, f := Sweep(s, sec), FindExpired(s, sec);
            var u := if PassRuns(s, sec) then CleanAll(f, f.main) else s;
            && t == u.(main := t.main, wait := t.wait, lastSec := t.lastSec)
            && f == s.(main := f.main, wait := f.wait)
  {
    hide CleanAll;
    hide FindExpired;
    FindExpiredFrame(s, sec);
  }

  lemma SweepOriented(s: State, sec: nat)
    requires RefsOk(s) && Oriented(s)
    ensures Oriented(Sweep(s, sec))
  {
    hide Oriented;
    hide SameKeys;
    hide RefsOk;
    SweepKeys(s, sec);
    hide Sweep;
    SameKeysOriented(s, Sweep(s, sec));
  }

  /** A sweep releases slots and touches no key. */
  lemma SweepKeys(s: State, sec: nat)
    ensures SameKeys(s, Sweep(s, sec))
    ensures Sweep(s, sec).Live() <= s.Live() && Shrunk(s, Sweep(s, sec))
  {
    hide CleanAll;
    hide Sweep;
    hide FindExpired;
    hide PassRuns;
    hide SameQueues;
    SweepIsRelease(s, sec);
    var f := FindExpired(s, sec);
    CleanAllFrame(f, f.main);
    CleanAllShrinks(f, f.main);
    SameQueuesKeys(f, CleanAll(f, f.main));
  }

  lemma SameQueuesKeys(s: State, t: State)
    requires SameQueues(s, t)
    ensures SameKeys(s, t)
  {
  }

  lemma InvGivesRefs(s: State)
    requires Inv(s)
    ensures RefsOk(s)
  {
    hide KeyOf;
  }

  lemma CreatedOriented(s: State, c: State, i: nat, key: StreamKey)
    requires RefsOk(s) && EndsTaken(s, s.Live()) && Oriented(s) && JustCreated(s, c, i, key)
    requires InitV4(key.ipproto, key.Left(), key.Right()).0 == key
    ensures Oriented(c)
  {
    hide Ok;
    hide AddrsOk;
    forall j: nat | j in c.Live() && HasRefs(c, j)
      ensures OrientedAt(c, j)
    {
      if j == i {
        CreatedHasKey(s, c, i, key);
      } else {
        CreatedKeepsKey(s, c, i, key, j);
        assert OrientedAt(s, j);
      }
      hide KeyOf;
    }
  }

  // ----- the counters of one packet -----

  /** The address slots that sent and received a packet of stream i. */
  function Sender(s: State, i: nat, flipped: bool): nat
    requires i < |s.streams|
  {
    if flipped then s.streams[i].idxRight else s.streams[i].idxLeft
  }

  function Receiver(s: State, i: nat, flipped: bool): nat
    requires i < |s.streams|
  {
    if flipped then s.streams[i].idxLeft else s.streams[i].idxRight
  }

  /** Only the sender's sent and the receiver's received counters move, by one packet of len bytes. */
  ghost predicate CountedOnce(a: AddrInfo, b: AddrInfo, sent: bool, received: bool, len: nat) {
    && b.txpackets == (if sent then U32(a.txpackets + 1) else a.txpackets)
    && b.txbytes == (if sent then U32(a.txbytes + len) else a.txbytes)
    && b.rxpackets == (if received then U32(a.rxpackets + 1) else a.rxpackets)
    && b.rxbytes == (if received then U32(a.rxbytes + len) else a.rxbytes)
  }

  lemma TrackCounts(s: State, i: nat, pkt: Packet, flipped: bool, a: nat)
    requires HasRefs(s, i) && |s.flows| == 6 && a < |s.addrs|
    ensures var t := Track(s, i, pkt, flipped);
            && |t.addrs| == |s.addrs| && |t.streams| == |s.streams|
            && Sender(t, i, flipped) == Sender(s, i, flipped) && Receiver(t, i, flipped) == Receiver(s, i, flipped)
            && CountedOnce(s.addrs[a], t.addrs[a], a == Sender(s, i, flipped), a == Receiver(s, i, flipped), pkt.len)
  {
    hide HasCleanup;
    hide U32;
    hide U16;
    hide Bump;
    hide SetCleanup;
    var s1 := NoteFlags(s, i, pkt);
    assert s1.addrs == s.addrs && |s1.streams| == |s.streams| && |s1.flows| == 6;
    assert s1.streams[i].idxLeft == s.streams[i].idxLeft && s1.streams[i].idxRight == s.streams[i].idxRight;
    hide NoteFlags;
    CountersCount(s1, i, flipped, pkt.len, a);
    hide IncStreamCounters;
  }

  lemma CountersCount(s: State, i: nat, flipped: bool, len: nat, a: nat)
    requires HasRefs(s, i) && a < |s.addrs|
    ensures var t := IncStreamCounters(s, i, flipped, len);
            && |t.addrs| == |s.addrs| && |t.streams| == |s.streams| && t.flows == s.flows
            && t.streams[i].idxLeft == s.streams[i].idxLeft && t.streams[i].idxRight == s.streams[i].idxRight
            && CountedOnce(s.addrs[a], t.addrs[a], a == Sender(s, i, flipped), a == Receiver(s, i, flipped), len)
  {
    hide U32;
    hide U16;
  }

  /** For an oriented stream of this key the sender's slot holds the packet's source address, and the
      receiver's slot its destination address. */
  lemma EndsOfPacket(s: State, i: nat, pkt: Packet)
    requires HasRefs(s, i) && OrientedAt(s, i) && KeyOf(s, i) == InitV4(pkt.ipproto, pkt.src, pkt.dst).0
    ensures var flipped := InitV4(pkt.ipproto, pkt.src, pkt.dst).1;
            && s.addrs[Sender(s, i, flipped)].addrOffset == pkt.src.addr
            && s.addrs[Receiver(s, i, flipped)].addrOffset == pkt.dst.addr
  {
    hide KeyOf;
  }

  // ----- every packet -----

  /** Slots taken while a stream is created start from zero, but no slot's received bytes are reset. */
  ghost predicate FreshFrom(s: State, c: State) {
    && |c.addrs| == |s.addrs|
    && (forall a: nat :: a < |s.addrs| ==> c.addrs[a].rxbytes == s.addrs[a].rxbytes)
    && forall a: nat :: a < |c.addrs| && a in c.LiveAddrs() && a !in s.LiveAddrs() ==>
      c.addrs[a].txpackets == c.addrs[a].txbytes == c.addrs[a].rxpackets == 0
  }

  /** Live address slots keep their records. */
  ghost predicate KeepsLive(s: State, c: State) {
    |c.addrs| == |s.addrs|
    && forall a: nat :: a < |s.addrs| && a in s.LiveAddrs() ==> a in c.LiveAddrs() && c.addrs[a] == s.addrs[a]
  }

  lemma AddrForFresh(s: State, ip: Addr, ts: Tval, isLan: Addr -> bool)
    requires ProductionPools(s)
    ensures var r := AddrFor(s, ip, ts, isLan);
            r.GotAddr? ==> ProductionPools(r.state) && FreshFrom(s, r.state) && KeepsLive(s, r.state)
  {
    hide ProductionPools;
    if ip in s.addrMap {
      hide AddrAlloc;
    } else {
      AddrAllocShape(s, ip, ts, isLan(ip));
      hide AddrAlloc;
      hide FreshFrom;
      hide KeepsLive;
      var r := AddrAlloc(s, ip, ts, isLan(ip));
      if r.GotAddr? {
        OneMoreSlot(s, r.state, r.idx);
      }
    }
  }

  lemma OneMoreSlot(s: State, t: State, a: nat)
    requires a < |s.addrs| && a !in s.LiveAddrs() && t.LiveAddrs() == s.LiveAddrs() + {a}
    requires |t.addrs| == |s.addrs| && forall b :: 0 <= b < |s.addrs| && b != a ==> t.addrs[b] == s.addrs[b]
    requires t.addrs[a].txpackets == t.addrs[a].txbytes == t.addrs[a].rxpackets == 0
    requires t.addrs[a].rxbytes == s.addrs[a].rxbytes
    ensures FreshFrom(s, t) && KeepsLive(s, t)
  {
  }

  lemma CreateFresh(s: State, pkt: Packet, key: StreamKey, isLan: Addr -> bool)
    requires ProductionPools(s)
    ensures var r := CreateStream(s, pkt, key, isLan);
            r.Made? ==> FreshFrom(s, r.state)
  {
    hide ProductionPools;
    hide Alloc;
    hide AddrFor;
    var r := CreateStream(s, pkt, key, isLan);
    if r.Made? {
      var s1 := s.(streamPool := Alloc(s.streamPool).pool, streamMap := s.streamMap[key := r.slot]);
      SamePools(s, s1);
      AddrForFresh(s1, key.left, pkt.ts, isLan);
      AddrForFresh(AddrFor(s1, key.left, pkt.ts, isLan).state, key.right, pkt.ts, isLan);
    }
  }

  /** The packet on top of what slot a counted before it: nothing if the slot is taken by this very
      packet, but for the received bytes that its previous tenant left there. */
  ghost predicate CountsPacket(s: State, t: State, a: nat, sent: bool, received: bool, len: nat)
    requires a < |s.addrs| == |t.addrs|
  {
    if a in s.LiveAddrs() then CountedOnce(s.addrs[a], t.addrs[a], sent, received, len)
    else
      && t.addrs[a].txpackets == (if sent then 1 else 0) && t.addrs[a].txbytes == (if sent then U32(len) else 0)
      && t.addrs[a].rxpackets == (if received then 1 else 0)
      && t.addrs[a].rxbytes == if received then U32(s.addrs[a].rxbytes + len) else s.addrs[a].rxbytes
  }

  /** The result of a counted packet: it is counted as sent by the slot that holds its source address,
      as received by the slot that holds its destination address, and nowhere else. */
  ghost predicate WellCounted(s: State, t: State, i: nat, pkt: Packet) {
    var flipped := InitV4(pkt.ipproto, pkt.src, pkt.dst).1;
    && HasRefs(t, i) && |t.addrs| == |s.addrs|
    && t.addrs[Sender(t, i, flipped)].addrOffset == pkt.src.addr
    && t.addrs[Receiver(t, i, flipped)].addrOffset == pkt.dst.addr
    && (forall a: nat :: a < |s.addrs| && a in t.LiveAddrs() ==>
          CountsPacket(s, t, a, a == Sender(t, i, flipped), a == Receiver(t, i, flipped), pkt.len))
  }

  /** From the state the packet is counted in to the state after it. */
  lemma TrackCountsWell(s: State, c: State, i: nat, pkt: Packet)
    requires HasRefs(c, i) && |c.flows| == 6 && |c.addrs| == |s.addrs| && OrientedAt(c, i)
    requires KeyOf(c, i) == InitV4(pkt.ipproto, pkt.src, pkt.dst).0
    requires FreshFrom(s, c) && forall a: nat :: a < |s.addrs| && a in s.LiveAddrs() ==> c.addrs[a] == s.addrs[a]
    ensures WellCounted(s, Track(c, i, pkt, InitV4(pkt.ipproto, pkt.src, pkt.dst).1), i, pkt)
  {
    hide Track;
    hide KeyOf;
    hide InitV4;
    hide OrientedAt;
    hide FirstCounted;
    hide SameCounts;
    var flipped := InitV4(pkt.ipproto, pkt.src, pkt.dst).1;
    var t := Track(c, i, pkt, flipped);
    EndsOfPacket(c, i, pkt);
    TrackShape(c, i, pkt, flipped);
    forall a: nat | a < |s.addrs| && a in t.LiveAddrs()
      ensures CountsPacket(s, t, a, a == Sender(t, i, flipped), a == Receiver(t, i, flipped), pkt.len)
    {
      TrackCounts(c, i, pkt, flipped, a);
    }
    TrackCounts(c, i, pkt, flipped, Sender(c, i, flipped));
  }

  lemma RecordCountsWell(s: State, pkt: Packet, isLan: Addr -> bool)
    requires Inv(s) && Oriented(s) && Admissible(s, pkt) && |s.flows| == 6 && Record(s, pkt, isLan).Next?
    ensures Oriented(Record(s, pkt, isLan).state)
    ensures Record(s, pkt, isLan).verdict.Counted? ==>
              WellCounted(s, Record(s, pkt, isLan).state, Record(s, pkt, isLan).verdict.slot, pkt)
  {
    var (key, flipped) := InitV4(pkt.ipproto, pkt.src, pkt.dst);
    RebuiltKey(pkt.ipproto, pkt.src, pkt.dst);
    hide InitV4;
    hide CreateStream;
    hide Track;
    hide Oriented;
    hide WellCounted;
    hide Linked;
    hide QueueOk;
    hide Ok;
    var s1 := s.(flows := Bump(s.flows, FLOW_TYPE_TOTAL, pkt.len));
    FlowsAreApart(s, s1);
    FlowsOriented(s, s1);
    if !(key.left == 0 || key.right == 0) {
      if key in s.streamMap {
        KnownCountsWell(s, s1, pkt, isLan);
      } else {
        var r := CreateStream(s1, pkt, key, isLan);
        if r.Made? {
          NewCountsWell(s, s1, r.state, r.slot, pkt, isLan);
        } else {
          FlowsOriented(s1, Record(s, pkt, isLan).state);
        }
      }
    }
  }

  lemma FlowsOriented(s: State, t: State)
    requires Oriented(s) && t == s.(flows := t.flows, refused := t.refused)
    ensures Oriented(t)
  {
    forall i: nat | i in t.Live() && HasRefs(t, i)
      ensures OrientedAt(t, i)
    {
      assert OrientedAt(s, i) && KeyOf(t, i) == KeyOf(s, i);
      hide KeyOf;
    }
  }

  lemma KnownCountsWell(s: State, s1: State, pkt: Packet, isLan: Addr -> bool)
    requires s1 == s.(flows := s1.flows) && Inv(s1) && Oriented(s1)
    requires InitV4(pkt.ipproto, pkt.src, pkt.dst).0 in s1.streamMap
    ensures var i := s1.streamMap[InitV4(pkt.ipproto, pkt.src, pkt.dst).0];
            HasRefs(s1, i) && |s1.flows| == 6
            && var t := Track(s1, i, pkt, InitV4(pkt.ipproto, pkt.src, pkt.dst).1);
               Oriented(t) && WellCounted(s, t, i, pkt)
  {
    hide Linked;
    hide QueueOk;
    hide PoolsOk;
    hide InitV4;
    hide KeyOf;
    hide Track;
    hide WellCounted;
    hide Oriented;
    hide OrientedAt;
    var (key, flipped) := InitV4(pkt.ipproto, pkt.src, pkt.dst);
    var i := s1.streamMap[key];
    KnownIsLive(s1, key);
    InvGivesKey(s1, key);
    InvGivesRefs(s1);
    LiveOriented(s1, i);
    TrackOriented(s1, i, pkt, flipped);
    TrackCountsWell(s, s1, i, pkt);
  }

  lemma InvGivesKey(s: State, key: StreamKey)
    requires Inv(s) && key in s.streamMap && HasRefs(s, s.streamMap[key])
    ensures KeyOf(s, s.streamMap[key]) == key
  {
    hide KeyOf;
    hide Ok;
  }

  lemma NewCountsWell(s: State, s1: State, c: State, i: nat, pkt: Packet, isLan: Addr -> bool)
    requires s1 == s.(flows := s1.flows) && Inv(s1) && Oriented(s1)
    requires var key := InitV4(pkt.ipproto, pkt.src, pkt.dst).0;
             && key !in s1.streamMap && Usable(s1, key.left) && Usable(s1, key.right)
             && CreateStream(s1, pkt, key, isLan) == Made(c, i)
    ensures HasRefs(c, i) && |c.flows| == 6
    ensures var t := Track(c, i, pkt, InitV4(pkt.ipproto, pkt.src, pkt.dst).1);
            Oriented(t) && WellCounted(s, t, i, pkt)
  {
    var (key, flipped) := InitV4(pkt.ipproto, pkt.src, pkt.dst);
    RebuiltKey(pkt.ipproto, pkt.src, pkt.dst);
    hide InitV4;
    hide Track;
    hide CreateStream;
    hide KeyOf;
    hide Oriented;
    hide WellCounted;
    hide Ok;
    InvGivesAddrs(s1);
    CreateOk(s1, pkt, key, isLan);
    CreateFresh(s1, pkt, key, isLan);
    CreatedOriented(s1, c, i, key);
    CreatedHasKey(s1, c, i, key);
    CreatedMap(s1, c, i, key);
    LiveOriented(c, i);
    TrackOriented(c, i, pkt, flipped);
    TrackCountsWell(s, c, i, pkt);
  }

  lemma LiveOriented(s: State, i: nat)
    requires Oriented(s) && i in s.Live() && HasRefs(s, i)
    ensures OrientedAt(s, i)
  {
  }

  // ----- every run -----

  lemma StepOriented(s: State, pkt: Packet, isLan: Addr -> bool)
    requires Inv(s) && StepFits(s, pkt, isLan) && Oriented(s) && |s.flows| == 6 && OnPacket(s, pkt, isLan).Next?
    ensures Oriented(OnPacket(s, pkt, isLan).state)
  {
    hide Oriented;
    hide Record;
    hide Sweep;
    hide LeavesTable;
    hide WellCounted;
    RecordCountsWell(s, pkt, isLan);
    RecordKeepsInv(s, pkt, isLan);
    InvGivesRefs(Record(s, pkt, isLan).state);
    hide Inv;
    var r := Record(s, pkt, isLan);
    if r.verdict.Counted? {
      SweepOriented(r.state, pkt.ts.sec);
    }
  }

  lemma InitialOriented()
    ensures Oriented(InitialState())
  {
  }

  lemma {:induction false} EveryRunIsOriented(pkts: seq<Packet>, isLan: Addr -> bool)
    requires RunFits(pkts, isLan)
    ensures RunPackets(pkts, isLan).Running? ==> Oriented(RunPackets(pkts, isLan).state)
    decreases |pkts|
  {
    hide Inv;
    hide OnPacket;
    hide StepFits;
    hide InitialState;
    hide Oriented;
    if pkts == [] {
      InitialOriented();
    } else {
      var n := |pkts| - 1;
      RunFitsBefore(pkts, isLan);
      EveryRunKeepsInv(pkts[..n], isLan);
      EveryRunIsOriented(pkts[..n], isLan);
      var o := RunPackets(pkts[..n], isLan);
      if o.Running? && |o.state.flows| == 6 && OnPacket(o.state, pkts[n], isLan).Next? {
        StepOriented(o.state, pkts[n], isLan);
      }
    }
  }

  /** On every run that fits, each further packet that is counted is counted as sent by the slot that
      holds its source address, as received by the slot that holds its destination, nowhere else. */
  lemma EveryPacketCountsAtItsEnds(pkts: seq<Packet>, pkt: Packet, isLan: Addr -> bool)
    requires RunFits(pkts, isLan) && RunPackets(pkts, isLan).Running?
    requires Admissible(RunPackets(pkts, isLan).state, pkt)
    ensures var s := RunPackets(pkts, isLan).state;
            && |s.flows| == 6
            && var r := Record(s, pkt, isLan);
               r.Next? && r.verdict.Counted? ==> WellCounted(s, r.state, r.verdict.slot, pkt)
  {
    EveryRunKeepsInv(pkts, isLan);
    EveryRunIsOriented(pkts, isLan);
    hide RunPackets;
    hide Oriented;
    hide Record;
    hide WellCounted;
    hide Linked;
    hide Admissible;
    var s := RunPackets(pkts, isLan).state;
    if Record(s, pkt, isLan).Next? {
      RecordCountsWell(s, pkt, isLan);
    }
  }
}
