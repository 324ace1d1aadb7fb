// The type a packet is counted under: web or not, inbound, outbound or internal, decided when its
// stream is created and read from the stream's flags ever after.
module FlowTypes {
  import opened Words
  import opened SlotPool
  import opened StreamKeys
  import opened Structs
  import opened Lifecycle
  import opened Capture
  import opened Tenancy
  import opened Directions

  /** The internal flag of a taken address slot agrees with its address. */
  ghost predicate Located(s: State, isLan: Addr -> bool) {
    forall a: nat :: a < |s.addrs| && a in s.LiveAddrs() ==> s.addrs[a].internal == isLan(s.addrs[a].addrOffset)
  }

  /** 4 within the LAN, otherwise 2 and 3 inbound, 0 and 1 outbound, the odd ones for the web. */
  function TypeIndex(leftInternal: bool, rightInternal: bool, rport: nat): nat {
    var web := rport == 80 || rport == 443 || rport == 8080;
    if leftInternal && rightInternal then 4
    else if rightInternal then (if web then 3 else 2)
    else if web then 1 else 0
  }

  /** The type that the addresses and the remote port of stream i call for. */
  function TypeOf(s: State, i: nat, isLan: Addr -> bool): nat
    requires HasRefs(s, i)
  {
    var ss := s.streams[i];
    TypeIndex(isLan(s.addrs[ss.idxLeft].addrOffset), isLan(s.addrs[ss.idxRight].addrOffset), ss.rport)
  }

  ghost predicate TypedStreams(s: State, isLan: Addr -> bool) {
    forall i: nat :: i in s.Live() && HasRefs(s, i) ==> FlowIndex(s.streams[i].flowflags) == TypeOf(s, i, isLan)
  }

  ghost predicate Typed(s: State, isLan: Addr -> bool) {
    Located(s, isLan) && TypedStreams(s, isLan)
  }

  /** t keeps all that types are made of, and takes no further slot. */
  ghost predicate SameTypes(s: State, t: State) {
    && SameKeys(s, t) && t.Live() <= s.Live() && t.LiveAddrs() <= s.LiveAddrs()
    && (forall i :: 0 <= i < |s.streams| ==> FlowIndex(t.streams[i].flowflags) == FlowIndex(s.streams[i].flowflags))
    && (forall a :: 0 <= a < |s.addrs| ==> t.addrs[a].internal == s.addrs[a].internal)
  }

  lemma SameTypesTyped(s: State, t: State, isLan: Addr -> bool)
    requires Typed(s, isLan) && SameTypes(s, t)
    ensures Typed(t, isLan)
  {
    hide FlowType;
    hide TypeIndex;
    hide FlowIndex;
    forall i: nat | i in t.Live() && HasRefs(t, i)
      ensures FlowIndex(t.streams[i].flowflags) == TypeOf(t, i, isLan)
    {
      assert HasRefs(s, i) && TypeOf(s, i, isLan) == TypeOf(t, i, isLan);
    }
  }

  // ----- counting -----

  lemma TrackTypes(s: State, i: nat, pkt: Packet, flipped: bool)
    requires HasRefs(s, i) && |s.flows| == 6
    ensures SameTypes(s, Track(s, i, pkt, flipped))
    ensures var k := FlowIndex(s.streams[i].flowflags);
            k < 6 ==> Track(s, i, pkt, flipped).flows == Bump(s.flows, k, pkt.len)
  {
    hide Bump;
    hide SameKeys;
    TrackShape(s, i, pkt, flipped);
    NoteTypes(s, i, pkt);
    var s1 := NoteFlags(s, i, pkt);
    hide NoteFlags;
    CounterTypes(s1, i, flipped, pkt.len);
    hide IncStreamCounters;
  }

  lemma NoteTypes(s: State, i: nat, pkt: Packet)
    requires HasRefs(s, i)
    ensures var t := NoteFlags(s, i, pkt);
            && HasRefs(t, i) && t.addrs == s.addrs && t.flows == s.flows && |t.streams| == |s.streams|
            && (forall j :: 0 <= j < |s.streams| ==> FlowIndex(t.streams[j].flowflags) == FlowIndex(s.streams[j].flowflags))
  {
    hide HasCleanup;
  }

  lemma CounterTypes(s: State, i: nat, flipped: bool, len: nat)
    requires HasRefs(s, i)
    ensures var t := IncStreamCounters(s, i, flipped, len);
            && |t.addrs| == |s.addrs| && t.flows == s.flows && |t.streams| == |s.streams|
            && (forall j :: 0 <= j < |s.streams| ==> t.streams[j].flowflags == s.streams[j].flowflags)
            && (forall a :: 0 <= a < |s.addrs| ==> t.addrs[a].internal == s.addrs[a].internal)
  {
    hide U32;
    hide U16;
  }

  // ----- releasing -----

  lemma SweepTypes(s: State, sec: nat)
    ensures SameTypes(s, Sweep(s, sec))
  {
    hide CleanAll;
    hide SameKeys;
    hide SameQueues;
    hide FlowIndex;
    hide PassRuns;
    hide Sweep;
    hide FindExpired;
    SweepKeys(s, sec);
    assert Sweep(s, sec).LiveAddrs() <= s.LiveAddrs();
    hide Shrunk;
    SweepIsRelease(s, sec);
    var f := FindExpired(s, sec);
    CleanAllFrame(f, f.main);
    FrameTypes(f, CleanAll(f, f.main));
  }

  lemma FrameTypes(s: State, t: State)
    requires SameQueues(s, t)
    ensures |t.streams| == |s.streams| && |t.addrs| == |s.addrs|
    ensures forall i :: 0 <= i < |s.streams| ==> t.streams[i].flowflags == s.streams[i].flowflags
    ensures forall a :: 0 <= a < |s.addrs| ==> t.addrs[a].internal == s.addrs[a].internal
  {
  }

  // ----- creating -----

  lemma AddrForLocated(s: State, ip: Addr, ts: Tval, isLan: Addr -> bool)
    requires ProductionPools(s) && Located(s, isLan)
    ensures var r := AddrFor(s, ip, ts, isLan);
            r.GotAddr? ==> ProductionPools(r.state) && Located(r.state, isLan)
  {
    hide ProductionPools;
    if ip !in s.addrMap {
      AddrAllocShape(s, ip, ts, isLan(ip));
      hide AddrAlloc;
    }
  }

  lemma CreateLocated(s: State, pkt: Packet, key: StreamKey, isLan: Addr -> bool)
    requires ProductionPools(s) && Located(s, isLan)
    ensures var r := CreateStream(s, pkt, key, isLan);
            r.Made? ==>
              && Located(r.state, isLan) && r.slot < |r.state.streams|
              && var ss := r.state.streams[r.slot];
                 && ss.idxLeft < |r.state.addrs| && ss.idxRight < |r.state.addrs|
                 && ss.flowflags == FlowType(r.state.addrs[ss.idxLeft].internal, r.state.addrs[ss.idxRight].internal, key.rport)
  {
    hide ProductionPools;
    hide Alloc;
    hide AddrFor;
    hide FlowType;
    hide TypeIndex;
    var r := CreateStream(s, pkt, key, isLan);
    if r.Made? {
      var s1 := s.(streamPool := Alloc(s.streamPool).pool, streamMap := s.streamMap[key := r.slot]);
      SamePools(s, s1);
      var s2 := AddrFor(s1, key.left, pkt.ts, isLan).state;
      AddrForLocated(s1, key.left, pkt.ts, isLan);
      AddrForKeeps(s1, key.left, pkt.ts, isLan);
      AddrForLocated(s2, key.right, pkt.ts, isLan);
      AddrForKeeps(s2, key.right, pkt.ts, isLan);
    }
  }

  /** The new stream and all others have their types. */
  lemma CreatedTyped(s: State, c: State, i: nat, key: StreamKey, isLan: Addr -> bool)
    requires EndsTaken(s, s.Live()) && TypedStreams(s, isLan) && JustCreated(s, c, i, key) && Located(c, isLan)
    requires var ss := c.streams[i];
             ss.flowflags == FlowType(c.addrs[ss.idxLeft].internal, c.addrs[ss.idxRight].internal, key.rport)
    ensures TypedStreams(c, isLan)
    ensures FlowIndex(c.streams[i].flowflags) == TypeIndex(isLan(key.left), isLan(key.right), key.rport)
  {
    hide Ok;
    hide AddrsOk;
    assert FlowIndex(c.streams[i].flowflags) == TypeIndex(isLan(key.left), isLan(key.right), key.rport);
    hide FlowType;
    hide TypeIndex;
    hide FlowIndex;
    forall j: nat | j in c.Live() && HasRefs(c, j)
      ensures FlowIndex(c.streams[j].flowflags) == TypeOf(c, j, isLan)
    {
      if j != i {
        assert HasRefs(s, j) && TypeOf(s, j, isLan) == TypeOf(c, j, isLan);
      }
    }
  }

  // ----- every packet -----

  /** The counters of a counted packet: the total, and the type its key calls for. */
  ghost predicate CountedUnder(s: State, t: State, pkt: Packet, isLan: Addr -> bool) {
    var key := InitV4(pkt.ipproto, pkt.src, pkt.dst).0;
    |s.flows| == 6
    && t.flows == Bump(Bump(s.flows, FLOW_TYPE_TOTAL, pkt.len), TypeIndex(isLan(key.left), isLan(key.right), key.rport), pkt.len)
  }

  lemma KnownTypes(s: State, s1: State, pkt: Packet, isLan: Addr -> bool)
    requires Inv(s1) && Oriented(s1) && Typed(s1, isLan) && |s.flows| == 6
    requires s1 == s.(flows := Bump(s.flows, FLOW_TYPE_TOTAL, pkt.len))
    requires InitV4(pkt.ipproto, pkt.src, pkt.dst).0 in s1.streamMap
    ensures var i := s1.streamMap[InitV4(pkt.ipproto, pkt.src, pkt.dst).0];
            HasRefs(s1, i)
            && var t := Track(s1, i, pkt, InitV4(pkt.ipproto, pkt.src, pkt.dst).1);
               Typed(t, isLan) && CountedUnder(s, t, pkt, isLan)
  {
    hide InitV4;
    hide KeyOf;
    hide Track;
    hide Bump;
    hide Ok;
    hide Oriented;
    hide SameTypes;
    var (key, flipped) := InitV4(pkt.ipproto, pkt.src, pkt.dst);
    var i := s1.streamMap[key];
    KnownIsLive(s1, key);
    InvGivesKey(s1, key);
    LiveOriented(s1, i);
    hide Inv;
    assert TypeOf(s1, i, isLan) == TypeIndex(isLan(key.left), isLan(key.right), key.rport);
    TrackTypes(s1, i, pkt, flipped);
    SameTypesTyped(s1, Track(s1, i, pkt, flipped), isLan);
  }

  lemma NewTypes(s: State, s1: State, c: State, i: nat, pkt: Packet, isLan: Addr -> bool)
    requires Inv(s1) && Typed(s1, isLan) && |s.flows| == 6
    requires s1 == s.(flows := Bump(s.flows, FLOW_TYPE_TOTAL, pkt.len))
    requires var key := InitV4(pkt.ipproto, pkt.src, pkt.dst).0;
             && Usable(s1, key.left) && Usable(s1, key.right)
             && CreateStream(s1, pkt, key, isLan) == Made(c, i)
    ensures HasRefs(c, i) && |c.flows| == 6
    ensures var t := Track(c, i, pkt, InitV4(pkt.ipproto, pkt.src, pkt.dst).1);
            Typed(t, isLan) && CountedUnder(s, t, pkt, isLan)
  {
    hide InitV4;
    hide KeyOf;
    hide Track;
    hide CreateStream;
    hide Bump;
    hide Ok;
    hide SameTypes;
    var (key, flipped) := InitV4(pkt.ipproto, pkt.src, pkt.dst);
    InvGivesAddrs(s1);
    CreateOk(s1, pkt, key, isLan);
    CreateLocated(s1, pkt, key, isLan);
    CreatedTyped(s1, c, i, key, isLan);
    hide TypedStreams;
    hide Located;
    TrackTypes(c, i, pkt, flipped);
    SameTypesTyped(c, Track(c, i, pkt, flipped), isLan);
  }

  lemma FlowsTyped(s: State, t: State, isLan: Addr -> bool)
    requires Typed(s, isLan) && t == s.(flows := t.flows, refused := t.refused)
    ensures Typed(t, isLan)
  {
    hide FlowType;
    hide TypeIndex;
    hide FlowIndex;
    SameTypesTyped(s, t, isLan);
  }

  lemma RecordTypes(s: State, pkt: Packet, isLan: Addr -> bool)
    requires Inv(s) && Oriented(s) && Typed(s, isLan) && Admissible(s, pkt) && |s.flows| == 6
    requires Record(s, pkt, isLan).Next?
    ensures Typed(Record(s, pkt, isLan).state, isLan)
    ensures Record(s, pkt, isLan).verdict.Counted? ==> CountedUnder(s, Record(s, pkt, isLan).state, pkt, isLan)
  {
    hide InitV4;
    hide CreateStream;
    hide Track;
    hide Oriented;
    hide Typed;
    hide CountedUnder;
    hide Linked;
    hide QueueOk;
    hide Ok;
    hide Bump;
    var (key, flipped) := InitV4(pkt.ipproto, pkt.src, pkt.dst);
    var s1 := s.(flows := Bump(s.flows, FLOW_TYPE_TOTAL, pkt.len));
    FlowsAreApart(s, s1);
    FlowsOriented(s, s1);
    FlowsTyped(s, s1, isLan);
    if !(key.left == 0 || key.right == 0) {
      if key in s.streamMap {
        KnownTypes(s, s1, pkt, isLan);
      } else {
        var r := CreateStream(s1, pkt, key, isLan);
        if r.Made? {
          NewTypes(s, s1, r.state, r.slot, pkt, isLan);
        } else {
          FlowsTyped(s1, Record(s, pkt, isLan).state, isLan);
        }
      }
    }
  }

  // ----- every run -----

  lemma StepTyped(s: State, pkt: Packet, isLan: Addr -> bool)
    requires Inv(s) && StepFits(s, pkt, isLan) && Oriented(s) && Typed(s, isLan) && |s.flows| == 6
    requires OnPacket(s, pkt, isLan).Next?
    ensures Typed(OnPacket(s, pkt, isLan).state, isLan)
  {
    hide Oriented;
    hide Typed;
    hide Record;
    hide Sweep;
    hide LeavesTable;
    hide CountedUnder;
    RecordTypes(s, pkt, isLan);
    RecordKeepsInv(s, pkt, isLan);
    hide Inv;
    hide SameTypes;
    var r := Record(s, pkt, isLan);
    if r.verdict.Counted? {
      SweepTypes(r.state, pkt.ts.sec);
      SameTypesTyped(r.state, Sweep(r.state, pkt.ts.sec), isLan);
    }
  }

  lemma InitialTyped(isLan: Addr -> bool)
    ensures Typed(InitialState(), isLan)
  {
  }

  /** On every run that fits, each live stream carries the type its addresses and port call for. */
  lemma {:induction false} EveryRunIsTyped(pkts: seq<Packet>, isLan: Addr -> bool)
    requires RunFits(pkts, isLan)
    ensures RunPackets(pkts, isLan).Running? ==> Typed(RunPackets(pkts, isLan).state, isLan)
    decreases |pkts|
  {
    hide Inv;
    hide OnPacket;
    hide StepFits;
    hide InitialState;
    hide Oriented;
    hide Typed;
    if pkts == [] {
      InitialTyped(isLan);
    } else {
      var n := |pkts| - 1;
      RunFitsBefore(pkts, isLan);
      EveryRunKeepsInv(pkts[..n], isLan);
      EveryRunIsOriented(pkts[..n], isLan);
      EveryRunIsTyped(pkts[..n], isLan);
      var o := RunPackets(pkts[..n], isLan);
      if o.Running? && |o.state.flows| == 6 && OnPacket(o.state, pkts[n], isLan).Next? {
        StepTyped(o.state, pkts[n], isLan);
      }
    }
  }

  /** On every run that fits, each further packet that is counted adds to the total and to the one
      type that its own key calls for. */
  lemma EveryPacketCountsUnderItsType(pkts: seq<Packet>, pkt: Packet, isLan: Addr -> bool)
    requires RunFits(pkts, isLan) && RunPackets(pkts, isLan).Running?
    requires Admissible(RunPackets(pkts, isLan).state, pkt)
    ensures var s := RunPackets(pkts, isLan).state;
            && |s.flows| == 6
            && var r := Record(s, pkt, isLan);
               r.Next? && r.verdict.Counted? ==> CountedUnder(s, r.state, pkt, isLan)
  {
    EveryRunKeepsInv(pkts, isLan);
    EveryRunIsOriented(pkts, isLan);
    EveryRunIsTyped(pkts, isLan);
    hide RunPackets;
    hide Oriented;
    hide Typed;
    hide Record;
    hide CountedUnder;
    hide Linked;
    hide Admissible;
    var s := RunPackets(pkts, isLan).state;
    if Record(s, pkt, isLan).Next? {
      RecordTypes(s, pkt, isLan);
    }
  }

  // ----- the six counters, spelled out -----

  /** The packet moves the total, counter 5, and one other counter by one packet and its length, in 32
      bits: 4 between two LAN addresses; otherwise 3 or 2 towards a LAN address on the right, 1 or 0
      elsewhere, the odd ones for the web ports. */
  ghost predicate MovesCounters(s: State, t: State, pkt: Packet, isLan: Addr -> bool) {
    var key := InitV4(pkt.ipproto, pkt.src, pkt.dst).0;
    var k := TypeIndex(isLan(key.left), isLan(key.right), key.rport);
    && |s.flows| == |t.flows| == 6
    && forall j :: 0 <= j < 6 ==>
         if j == k || j == 5
         then t.flows[j] == Flow((s.flows[j].packets + 1) % 0x1_0000_0000, (s.flows[j].bytes + pkt.len) % 0x1_0000_0000)
         else t.flows[j] == s.flows[j]
  }

  lemma CountedUnderMoves(s: State, t: State, pkt: Packet, isLan: Addr -> bool)
    requires CountedUnder(s, t, pkt, isLan)
    ensures MovesCounters(s, t, pkt, isLan)
  {
    hide InitV4;
    U32IsRemainder();
    hide U32;
  }

  lemma U32IsRemainder()
    ensures forall x: int :: U32(x) == x % 0x1_0000_0000
  {
  }

  /** On every run that fits, each further packet that is counted moves the total and the counter that its
      addresses and its right port call for, and no other. */
  lemma EveryPacketMovesItsCounters(pkts: seq<Packet>, pkt: Packet, isLan: Addr -> bool)
    requires RunFits(pkts, isLan) && RunPackets(pkts, isLan).Running?
    requires Admissible(RunPackets(pkts, isLan).state, pkt)
    ensures var s := RunPackets(pkts, isLan).state;
            && |s.flows| == 6
            && var r := Record(s, pkt, isLan);
               r.Next? && r.verdict.Counted? ==> MovesCounters(s, r.state, pkt, isLan)
  {
    EveryPacketCountsUnderItsType(pkts, pkt, isLan);
    hide RunPackets;
    hide Record;
    hide CountedUnder;
    hide MovesCounters;
    var s := RunPackets(pkts, isLan).state;
    var r := Record(s, pkt, isLan);
    if r.Next? && r.verdict.Counted? {
      CountedUnderMoves(s, r.state, pkt, isLan);
    }
  }
}
