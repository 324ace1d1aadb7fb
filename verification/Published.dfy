// What the capture process publishes is what the statistics process asks for: the windows lie inside
// the tables, taken streams refer to existing slots, LAN slots are internal and nothing is marked.
module Published {
  import opened Words
  import opened SlotPool
  import opened StreamKeys
  import opened Structs
  import opened Ports
  import opened Lifecycle
  import opened Capture
  import opened Tenancy
  import opened Liveness
  import opened Directions
  import opened MinuteReport
  import opened Reporter

  /** No address slot carries a port mark. */
  ghost predicate Blank(s: State) {
    forall a :: 0 <= a < |s.addrs| ==> s.addrs[a].resvd == ZERO16 == s.addrs[a].resvd2
  }

  /** The internal flag of a taken slot tells the pool it belongs to. */
  ghost predicate PoolTells(s: State) {
    && (forall a: nat :: a < |s.addrs| && a in s.lanPool.taken ==> s.addrs[a].internal)
    && (forall a: nat :: a < |s.addrs| && a in s.wanPool.taken ==> !s.addrs[a].internal)
  }

  ghost predicate Neat(s: State) {
    Blank(s) && PoolTells(s)
  }

  ghost predicate SameMarks(s: State, t: State) {
    && |t.addrs| == |s.addrs| && Shrunk(s, t)
    && (forall a :: 0 <= a < |s.addrs| ==>
          t.addrs[a].internal == s.addrs[a].internal && t.addrs[a].resvd == s.addrs[a].resvd
          && t.addrs[a].resvd2 == s.addrs[a].resvd2)
  }

  lemma SameMarksNeat(s: State, t: State)
    requires Neat(s) && SameMarks(s, t)
    ensures Neat(t)
  {
  }

  // ----- every packet -----

  lemma TrackMarks(s: State, i: nat, pkt: Packet, flipped: bool)
    requires HasRefs(s, i) && |s.flows| == 6
    ensures SameMarks(s, Track(s, i, pkt, flipped))
  {
    hide SameKeys;
    TrackShape(s, i, pkt, flipped);
    NoteShape(s, i, pkt);
    var s1 := NoteFlags(s, i, pkt);
    hide NoteFlags;
    CounterMarks(s1, i, flipped, pkt.len);
    hide IncStreamCounters;
  }

  lemma CounterMarks(s: State, i: nat, flipped: bool, len: nat)
    requires HasRefs(s, i)
    ensures var t := IncStreamCounters(s, i, flipped, len);
            && |t.addrs| == |s.addrs|
            && (forall a :: 0 <= a < |s.addrs| ==>
                  t.addrs[a].internal == s.addrs[a].internal && t.addrs[a].resvd == s.addrs[a].resvd
                  && t.addrs[a].resvd2 == s.addrs[a].resvd2)
  {
    hide U32;
    hide U16;
  }

  lemma AddrForNeat(s: State, ip: Addr, ts: Tval, isLan: Addr -> bool)
    requires ProductionPools(s) && Neat(s)
    ensures var r := AddrFor(s, ip, ts, isLan);
            r.GotAddr? ==> ProductionPools(r.state) && Neat(r.state)
  {
    hide ProductionPools;
    hide AddrAlloc;
    hide Neat;
    if ip !in s.addrMap {
      AddrAllocShape(s, ip, ts, isLan(ip));
      AddrAllocPools(s, ip, ts, isLan(ip));
      var r := AddrAlloc(s, ip, ts, isLan(ip));
      if r.GotAddr? {
        OneMoreNeat(s, r.state, r.idx, isLan(ip));
      }
    }
  }

  lemma OneMoreNeat(s: State, t: State, a: nat, lan: bool)
    requires Neat(s) && a < |s.addrs| == |t.addrs|
    requires t.lanPool.taken == s.lanPool.taken + (if lan then {a} else {})
    requires t.wanPool.taken == s.wanPool.taken + (if lan then {} else {a})
    requires a !in s.LiveAddrs() && forall b :: 0 <= b < |s.addrs| && b != a ==> t.addrs[b] == s.addrs[b]
    requires t.addrs[a].internal == lan && t.addrs[a].resvd == ZERO16 == t.addrs[a].resvd2
    ensures Neat(t)
  {
  }

  /** The new slot goes to the pool of its address, and the other pool does not hold it. */
  lemma AddrAllocPools(s: State, ip: Addr, ts: Tval, lan: bool)
    requires ProductionPools(s)
    ensures var r := AddrAlloc(s, ip, ts, lan);
            r.GotAddr? ==>
              && r.state.lanPool.taken == s.lanPool.taken + (if lan then {r.idx} else {})
              && r.state.wanPool.taken == s.wanPool.taken + (if lan then {} else {r.idx})
              && r.idx !in s.LiveAddrs()
  {
    hide Alloc;
    hide Ok;
    AllocIsFresh(s, lan);
  }

  lemma CreateNeat(s: State, pkt: Packet, key: StreamKey, isLan: Addr -> bool)
    requires ProductionPools(s) && Neat(s)
    ensures var r := CreateStream(s, pkt, key, isLan);
            r.Made? ==> Neat(r.state)
  {
    hide ProductionPools;
    hide Alloc;
    hide AddrFor;
    hide FlowType;
    var r := CreateStream(s, pkt, key, isLan);
    if r.Made? {
      var s1 := s.(streamPool := Alloc(s.streamPool).pool, streamMap := s.streamMap[key := r.slot]);
      SamePools(s, s1);
      AddrForNeat(s1, key.left, pkt.ts, isLan);
      AddrForNeat(AddrFor(s1, key.left, pkt.ts, isLan).state, key.right, pkt.ts, isLan);
    }
  }

  lemma RecordNeat(s: State, pkt: Packet, isLan: Addr -> bool)
    requires Inv(s) && Neat(s) && |s.flows| == 6 && Record(s, pkt, isLan).Next?
    ensures Neat(Record(s, pkt, isLan).state)
  {
    hide InitV4;
    hide CreateStream;
    hide Track;
    hide Linked;
    hide QueueOk;
    hide Ok;
    hide ProductionPools;
    hide SameMarks;
    var (key, flipped) := InitV4(pkt.ipproto, pkt.src, pkt.dst);
    var s1 := s.(flows := Bump(s.flows, FLOW_TYPE_TOTAL, pkt.len));
    assert Neat(s1);
    SamePools(s, s1);
    CreateNeat(s1, pkt, key, isLan);
    if !(key.left == 0 || key.right == 0) {
      if key in s.streamMap {
        TrackMarks(s1, s.streamMap[key], pkt, flipped);
        SameMarksNeat(s1, Track(s1, s.streamMap[key], pkt, flipped));
      } else {
        var r := CreateStream(s1, pkt, key, isLan);
        if r.Made? {
          TrackMarks(r.state, r.slot, pkt, flipped);
          SameMarksNeat(r.state, Track(r.state, r.slot, pkt, flipped));
        }
      }
    }
  }

  lemma SweepNeat(s: State, sec: nat)
    requires Neat(s)
    ensures Neat(Sweep(s, sec))
  {
    hide CleanAll;
    hide SameKeys;
    hide PassRuns;
    hide FindExpired;
    SweepKeys(s, sec);
    SweepIsRelease(s, sec);
    hide Sweep;
    var f := FindExpired(s, sec);
    CleanAllFrame(f, f.main);
    hide Shrunk;
    SameMarksNeat(s, Sweep(s, sec));
  }

  lemma StepNeat(s: State, pkt: Packet, isLan: Addr -> bool)
    requires Inv(s) && Neat(s) && |s.flows| == 6 && OnPacket(s, pkt, isLan).Next?
    ensures Neat(OnPacket(s, pkt, isLan).state)
  {
    hide Neat;
    hide Inv;
    hide Record;
    hide Sweep;
    hide LeavesTable;
    RecordNeat(s, pkt, isLan);
    SweepNeat(Record(s, pkt, isLan).state, pkt.ts.sec);
  }

  lemma InitialNeat()
    ensures Neat(InitialState())
  {
  }

  /** On every run that fits, no address slot is marked and the internal flags tell the pools. */
  lemma {:induction false} EveryRunIsNeat(pkts: seq<Packet>, isLan: Addr -> bool)
    requires RunFits(pkts, isLan)
    ensures RunPackets(pkts, isLan).Running? ==> Neat(RunPackets(pkts, isLan).state)
    decreases |pkts|
  {
    hide Inv;
    hide OnPacket;
    hide StepFits;
    hide InitialState;
    hide Neat;
    if pkts == [] {
      InitialNeat();
    } else {
      var n := |pkts| - 1;
      RunFitsBefore(pkts, isLan);
      EveryRunKeepsInv(pkts[..n], isLan);
      EveryRunIsNeat(pkts[..n], isLan);
      var o := RunPackets(pkts[..n], isLan);
      if o.Running? && |o.state.flows| == 6 && OnPacket(o.state, pkts[n], isLan).Next? {
        StepNeat(o.state, pkts[n], isLan);
      }
    }
  }

  // ----- what the report asks for -----

  function WindowsOf(s: State): Windows {
    Windows(Window(s.streamPool.lo, s.streamPool.hi), Window(s.lanPool.lo, s.lanPool.hi), Window(s.wanPool.lo, s.wanPool.hi))
  }

  /** Everything that check_minute needs to know about the tables it copies. */
  ghost predicate ReadyForReport(s: State) {
    var w := WindowsOf(s);
    && |s.streams| == NUM_STREAMS && |s.addrs| == NUM_ADDRS && WindowsFit(w, |s.streams|, |s.addrs|)
    && w.lan.hi - w.lan.lo <= NUM_ADDRS / 2 && w.lan.hi <= w.wan.lo + 1
    && RefsWithin(s.streams, |s.addrs|)
    && (forall i: nat :: i in s.Live() ==> w.streams.lo < i < w.streams.hi)
  }

  /** A window that holds all taken slots, tightly, ends where they end. */
  lemma WindowEnds(p: Pool, n: nat)
    requires Ok(p) && p.Mid() + 1 <= n && forall i :: i in p.taken ==> i < n
    ensures p.LowEnd() - 1 <= p.lo < p.hi <= n && forall i :: i in p.taken ==> p.lo < i < p.hi
  {
  }

  lemma PoolWindows(s: State)
    requires PoolsOk(s) && AddrsFit(s) && forall i :: i in s.Live() ==> i < |s.streams|
    ensures var w := WindowsOf(s);
            && WindowsFit(w, |s.streams|, |s.addrs|) && w.lan.hi <= LAN_SIZE + 1 && w.wan.lo >= LAN_SIZE
            && forall i: nat :: i in s.Live() ==> w.streams.lo < i < w.streams.hi
  {
    PoolsAreDisjoint(s);
    hide Ok;
    assert forall i :: i in s.streamPool.taken ==> i in s.Live() && i < |s.streams|;
    assert forall a :: a in s.wanPool.taken ==> a in s.LiveAddrs() && a < |s.addrs|;
    WindowEnds(s.streamPool, |s.streams|);
    WindowEnds(s.lanPool, LAN_SIZE + 1);
    WindowEnds(s.wanPool, |s.addrs|);
  }

  lemma InvIsReady(s: State)
    requires Inv(s) && Timed(s)
    ensures ReadyForReport(s)
  {
    hide Linked;
    hide QueueOk;
    hide Ok;
    InvGivesRefs(s);
    InvAddrsFit(s);
    PoolWindows(s);
    hide AddrsFit;
    forall i | 0 <= i < |s.streams| && !EmptySlot(s.streams[i].tstart)
      ensures s.streams[i].idxLeft < |s.addrs| && s.streams[i].idxRight < |s.addrs|
    {
      assert i in s.Live();
    }
  }

  /** On every run that fits, the published tables are what check_minute needs. */
  lemma EveryRunIsReady(pkts: seq<Packet>, isLan: Addr -> bool)
    requires RunFits(pkts, isLan) && RunPackets(pkts, isLan).Running?
    requires forall k :: 0 <= k < |pkts| ==> pkts[k].ts.sec > 0
    ensures ReadyForReport(RunPackets(pkts, isLan).state)
  {
    EveryRunKeepsInv(pkts, isLan);
    EveryRunKeepsFlags(pkts, isLan);
    hide RunPackets;
    hide ReadyForReport;
    InvIsReady(RunPackets(pkts, isLan).state);
  }

  // ----- port scans, from packets to rows -----

  /** The watched ports that live streams of the capture process give address slot a on one side. */
  ghost function LivePorts(s: State, a: nat, left: bool): set<nat> {
    set p | p in WATCHED && exists i: nat :: i in s.Live() && i < |s.streams| && OnSide(s.streams[i], a, p, left)
  }

  predicate OnSide(ss: StreamInfo, a: nat, p: nat, left: bool) {
    ss.rport == p && a == if left then ss.idxLeft else ss.idxRight
  }

  /** The tables a report starts from, over any working copies. */
  ghost function StartOf(s: State, streams: seq<StreamInfo>, last: seq<StreamInfo>, addrs: seq<AddrInfo>): Tables
    requires WindowsFit(WindowsOf(s), |streams|, |addrs|) && |streams| <= |s.streams| && |addrs| <= |s.addrs|
  {
    var w := WindowsOf(s);
    Tables(Copied(streams, s.streams, w.streams), last, Copied(Copied(addrs, s.addrs, w.lan), s.addrs, w.wan), [])
  }

  lemma ContactsAreLive(s: State, streams: seq<StreamInfo>, a: nat, left: bool)
    requires TimedStreams(s) && ReadyForReport(s) && |streams| == |s.streams|
    ensures var w := WindowsOf(s).streams;
            ContactPorts(Copied(streams, s.streams, w), w.lo + 1, w.hi, a, left) == LivePorts(s, a, left)
  {
    var w := WindowsOf(s).streams;
    var c := Copied(streams, s.streams, w);
    forall p | p in WATCHED
      ensures Contacted(c, w.lo + 1, w.hi, a, p, left)
              <==> exists i: nat :: i in s.Live() && i < |s.streams| && OnSide(s.streams[i], a, p, left)
    {
      if i: nat :| i in s.Live() && i < |s.streams| && OnSide(s.streams[i], a, p, left) {
        assert Contact(c, i, a, p, left);
      }
      if j: nat :| w.lo + 1 <= j < w.hi && Contact(c, j, a, p, left) {
        assert j in s.Live() && OnSide(s.streams[j], a, p, left);
      }
    }
  }

  lemma NeatSlotSees(s: State, streams: seq<StreamInfo>, last: seq<StreamInfo>, addrs: seq<AddrInfo>, a: nat, left: bool)
    requires TimedStreams(s) && ReadyForReport(s) && Neat(s) && |streams| == |s.streams| && |addrs| == |s.addrs|
    requires WindowsOf(s).lan.lo < a < WindowsOf(s).lan.hi && a in s.lanPool.taken
    ensures var w := WindowsOf(s).streams;
            PortsSeen(StartOf(s, streams, last, addrs), w.lo + 1, w.hi, a, left) == LivePorts(s, a, left)
  {
    ContactsAreLive(s, streams, a, left);
    hide ContactPorts;
    hide LivePorts;
    var start := StartOf(s, streams, last, addrs);
    assert start.addrs[a] == s.addrs[a];
    NoPorts(ZERO16, 0);
  }

  lemma {:induction false} NoPorts(mask: Word16, i: nat)
    requires mask == ZERO16 && i <= 16
    ensures PortsFrom(mask, i) == {}
    decreases 16 - i
  {
    if i < 16 {
      NoPorts(mask, i + 1);
    }
  }

  /** The lists of suspicious LAN slots, for working copies of any content. */
  ghost predicate SuspectsExact(s: State, o: Orders, a: nat) {
    && (a in o.lan.scanners <==> a in s.lanPool.taken && |LivePorts(s, a, true)| > 10)
    && (a in o.lan.targets <==> a in s.lanPool.taken && |LivePorts(s, a, false)| > 10)
  }

  lemma StartInBounds(s: State, streams: seq<StreamInfo>, last: seq<StreamInfo>, addrs: seq<AddrInfo>)
    requires ReadyForReport(s) && |streams| == |last| == NUM_STREAMS && |addrs| == NUM_ADDRS
    requires RefsWithin(streams, NUM_ADDRS)
    ensures InBounds(StartOf(s, streams, last, addrs))
  {
  }

  lemma SuspectsAt(s: State, streams: seq<StreamInfo>, last: seq<StreamInfo>,
                   addrs: seq<AddrInfo>, lastAddrs: seq<AddrInfo>, o: Orders, a: nat)
    requires Inv(s) && Timed(s) && Neat(s) && ReadyForReport(s)
    requires |streams| == |last| == NUM_STREAMS && |addrs| == |lastAddrs| == NUM_ADDRS
    requires InBounds(StartOf(s, streams, last, addrs))
    requires var start, w := StartOf(s, streams, last, addrs), WindowsOf(s);
             MinuteRanks(start, MinuteOf(start, lastAddrs, w), o, w) && w.lan.lo < a < w.lan.hi
    ensures SuspectsExact(s, o, a)
  {
    hide Inv;
    hide Neat;
    hide MinuteOf;
    hide MinuteRanks;
    hide PortsSeen;
    hide LivePorts;
    hide InBounds;
    hide RefsWithin;
    hide TimedStreams;
    hide TimedAddrs;
    var w, start := WindowsOf(s), StartOf(s, streams, last, addrs);
    SuspectsContactManyPorts(start, lastAddrs, w, o, a);
    LanSlotIsTimed(s, a);
    assert start.addrs[a] == s.addrs[a];
    if a in s.lanPool.taken {
      NeatSlotSees(s, streams, last, addrs, a, true);
      NeatSlotSees(s, streams, last, addrs, a, false);
    }
  }

  /** From the packets to the report: after every run that fits, whatever the statistics process holds
      from before, a slot of the LAN window is listed as a scanner (target) exactly when the pool holds
      it and its live streams use more than ten distinct watched ports with it on the left (right). */
  lemma SuspectsAreScanners(pkts: seq<Packet>, isLan: Addr -> bool, streams: seq<StreamInfo>, last: seq<StreamInfo>,
                            addrs: seq<AddrInfo>, lastAddrs: seq<AddrInfo>, o: Orders, a: nat)
    requires RunFits(pkts, isLan) && RunPackets(pkts, isLan).Running?
    requires forall k :: 0 <= k < |pkts| ==> pkts[k].ts.sec > 0
    requires |streams| == |last| == NUM_STREAMS && |addrs| == |lastAddrs| == NUM_ADDRS && RefsWithin(streams, NUM_ADDRS)
    ensures ReadyForReport(RunPackets(pkts, isLan).state)
    ensures var s := RunPackets(pkts, isLan).state;
            var w, start := WindowsOf(s), StartOf(s, streams, last, addrs);
            && InBounds(start)
            && (MinuteRanks(start, MinuteOf(start, lastAddrs, w), o, w) && w.lan.lo < a < w.lan.hi ==>
                  SuspectsExact(s, o, a))
  {
    EveryRunIsReady(pkts, isLan);
    EveryRunKeepsInv(pkts, isLan);
    EveryRunKeepsFlags(pkts, isLan);
    EveryRunIsNeat(pkts, isLan);
    hide RunPackets;
    hide Inv;
    hide Neat;
    hide Timed;
    hide MinuteOf;
    hide MinuteRanks;
    hide InBounds;
    hide RefsWithin;
    hide SuspectsExact;
    var s := RunPackets(pkts, isLan).state;
    var w, start := WindowsOf(s), StartOf(s, streams, last, addrs);
    StartInBounds(s, streams, last, addrs);
    if MinuteRanks(start, MinuteOf(start, lastAddrs, w), o, w) && w.lan.lo < a < w.lan.hi {
      SuspectsAt(s, streams, last, addrs, lastAddrs, o, a);
    }
  }

  lemma LanSlotIsTimed(s: State, a: nat)
    requires Inv(s) && TimedAddrs(s) && a < |s.addrs| && a < s.lanPool.hi
    ensures a in s.lanPool.taken <==> !EmptySlot(s.addrs[a].tstart)
  {
    hide Linked;
    hide QueueOk;
    PoolsAreDisjoint(s);
  }
}
