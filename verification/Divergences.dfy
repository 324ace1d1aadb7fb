// Two-packet captures on which the bookkeeping of the capture process goes wrong.
module Divergences {
  import opened Words
  import opened SlotPool
  import opened StreamKeys
  import opened Structs
  import opened Lifecycle
  import opened Capture
  import opened Tenancy

  function KeyFor(p: Packet): StreamKey {
    InitV4(p.ipproto, p.src, p.dst).0
  }

  predicate Addressed(p: Packet) {
    KeyFor(p).left != 0 && KeyFor(p).right != 0
  }

  predicate Fin(p: Packet) {
    p.istcp && p.isfin
  }

  // ----- the first packet of a conversation -----

  /** t follows s by one packet that opened a stream in slot i. */
  ghost predicate Opened(s: State, t: State, i: nat, pkt: Packet) {
    && Inv(t) && i !in s.Live() && t.Live() == s.Live() + {i} && HasRefs(t, i)
    && |t.streams| == |s.streams| && (forall j :: 0 <= j < |s.streams| && j != i ==> t.streams[j] == s.streams[j])
    && t.streams[i].tlast == pkt.ts && t.lastSec == s.lastSec && t.gone == s.gone
    && (t.main, t.wait) == (if Fin(pkt) then (Enqueue(s, pkt.ts.sec, i).main, Enqueue(s, pkt.ts.sec, i).wait) else (s.main, s.wait))
    && t.streamMap == s.streamMap[KeyFor(pkt) := i]
    && KeyFor(pkt).left in t.addrMap && t.streams[i].idxLeft == t.addrMap[KeyFor(pkt).left]
    && (forall lan :: TakenFor(t, lan) <= TakenFor(s, lan) + 2)
  }

  /** What creating a stream does apart from the tables: the flags, the clock and the number of slots. */
  lemma CreateRest(s: State, pkt: Packet, key: StreamKey, isLan: Addr -> bool)
    requires AddrsFit(s)
    ensures var r := CreateStream(s, pkt, key, isLan);
            r.Made? ==>
              && r.slot < |r.state.streams| && !HasCleanup(r.state.streams[r.slot].flowflags)
              && r.state.lastSec == s.lastSec
              && (forall lan :: TakenFor(r.state, lan) <= TakenFor(s, lan) + 2)
  {
    hide Alloc;
    hide AddrFor;
    hide AddrsFit;
    hide TakenFor;
    var r := CreateStream(s, pkt, key, isLan);
    if r.Made? {
      var s1 := s.(streamPool := Alloc(s.streamPool).pool, streamMap := s.streamMap[key := r.slot]);
      SameAddrs(s, s1);
      AddrForCounts(s1, key.left, pkt.ts, isLan);
      AddrForRest(s1, key.left, pkt.ts, isLan);
      var s2 := AddrFor(s1, key.left, pkt.ts, isLan).state;
      AddrForCounts(s2, key.right, pkt.ts, isLan);
      AddrForRest(s2, key.right, pkt.ts, isLan);
      var s3 := AddrFor(s2, key.right, pkt.ts, isLan).state;
      SameTaken(s3, r.state);
    }
  }

  lemma AddrForRest(s: State, ip: Addr, ts: Tval, isLan: Addr -> bool)
    ensures var r := AddrFor(s, ip, ts, isLan);
            r.GotAddr? ==> r.state.lastSec == s.lastSec && |r.state.addrs| == |s.addrs|
  {
    hide Alloc;
  }

  lemma SameTaken(s: State, t: State)
    requires t.lanPool == s.lanPool && t.wanPool == s.wanPool
    ensures forall lan :: TakenFor(t, lan) == TakenFor(s, lan)
  {
  }

  /** What counting a packet does apart from the counters. */
  lemma TrackRest(s: State, i: nat, pkt: Packet, flipped: bool)
    requires HasRefs(s, i) && |s.flows| == 6 && !HasCleanup(s.streams[i].flowflags)
    ensures var t := Track(s, i, pkt, flipped);
            && t.streams[i].tlast == pkt.ts && t.lastSec == s.lastSec
            && (t.main, t.wait) == (if Fin(pkt) then (Enqueue(s, pkt.ts.sec, i).main, Enqueue(s, pkt.ts.sec, i).wait) else (s.main, s.wait))
  {
    hide HasCleanup;
    hide SetCleanup;
    hide U32;
    hide U16;
    hide IncAddrCtrs;
    hide IncActive;
    hide Bump;
  }

  lemma RecordNew(s: State, pkt: Packet, isLan: Addr -> bool)
    requires Inv(s) && Addressed(pkt) && KeyFor(pkt) !in s.streamMap && !NoRoomFor(s, KeyFor(pkt), isLan)
    requires Usable(s, KeyFor(pkt).left) && Usable(s, KeyFor(pkt).right)
    ensures |s.flows| == 6 && OnPacket(s, pkt, isLan).Next?
    ensures var r := Record(s, pkt, isLan);
            && r.Next? && r.verdict.Counted? && Opened(s, r.state, r.verdict.slot, pkt)
            && OnPacket(s, pkt, isLan).state == Sweep(r.state, pkt.ts.sec)
  {
    hide InitV4;
    hide CreateStream;
    hide Track;
    hide Linked;
    hide QueueOk;
    hide PoolsOk;
    hide Bump;
    hide Sweep;
    hide NoRoomFor;
    hide Usable;
    hide TakenFor;
    hide JustCreated;
    hide HasCleanup;
    hide LeavesTable;
    hide Enqueue;
    hide AddrsFit;
    hide AddrsOk;
    hide RefsOk;
    hide Ok;
    hide FinFits;
    hide U32;
    hide SameCounts;
    hide FirstCounted;
    var (key, flipped) := InitV4(pkt.ipproto, pkt.src, pkt.dst);
    FaultIffNoRoom(s, pkt, isLan);
    RecordKeepsInv(s, pkt, isLan);
    var s1 := s.(flows := Bump(s.flows, FLOW_TYPE_TOTAL, pkt.len));
    FlowsAreApart(s, s1);
    InvAddrsFit(s1);
    InvGivesAddrs(s1);
    UsableAlike(s, s1, key.left);
    UsableAlike(s, s1, key.right);
    CreateOk(s1, pkt, key, isLan);
    CreateMaps(s1, pkt, key, isLan);
    CreateRest(s1, pkt, key, isLan);
    var c := CreateStream(s1, pkt, key, isLan);
    CreatedTables(s1, c.state, c.slot, key);
    CreateShape(s1, pkt, key, isLan);
    TrackShape(c.state, c.slot, pkt, flipped);
    TrackRest(c.state, c.slot, pkt, flipped);
    var t := Track(c.state, c.slot, pkt, flipped);
    SameTaken(c.state, t);
    SameTaken(s, s1);
    EnqueueAlike(s, c.state, pkt.ts.sec, c.slot);
  }

  lemma EnqueueAlike(s: State, t: State, sec: nat, i: nat)
    requires t.main == s.main && t.wait == s.wait
    ensures Enqueue(t, sec, i).main == Enqueue(s, sec, i).main && Enqueue(t, sec, i).wait == Enqueue(s, sec, i).wait
  {
  }

  lemma UsableAlike(s: State, t: State, x: Addr)
    requires t == s.(flows := t.flows)
    ensures Usable(t, x) <==> Usable(s, x)
  {
  }

  /** The parts of JustCreated that the runs below use. */
  lemma CreatedTables(s: State, c: State, i: nat, key: StreamKey)
    requires JustCreated(s, c, i, key)
    ensures i !in s.Live() && c.Live() == s.Live() + {i} && HasRefs(c, i) && |c.streams| == |s.streams|
    ensures forall j :: 0 <= j < |s.streams| && j != i ==> c.streams[j] == s.streams[j]
    ensures c.streamMap == s.streamMap[key := i] && c.main == s.main && c.wait == s.wait && c.gone == s.gone
  {
    hide AddrsOk;
    hide Ok;
  }

  /** With a stream or two there is room for another one. */
  lemma FewLeaveRoom(s: State, key: StreamKey, isLan: Addr -> bool)
    requires |s.Live()| <= 1 && forall lan :: TakenFor(s, lan) <= 2
    ensures !NoRoomFor(s, key, isLan)
  {
  }

  lemma StartLeavesRoom(key: StreamKey, isLan: Addr -> bool)
    ensures Inv(InitialState()) && !NoRoomFor(InitialState(), key, isLan)
    ensures forall lan :: TakenFor(InitialState(), lan) == 0
  {
    InitialInv();
  }

  // ----- expired streams -----

  lemma {:induction false} ExpiredMember(s: State, sec: nat, n: nat, i: nat)
    requires s.streamPool.lo < i < n && IsExpired(s, sec, i)
    ensures i in ExpiredBelow(s, sec, n)
    decreases n
  {
    if i < n - 1 {
      ExpiredMember(s, sec, n - 1, i);
    }
  }

  /** If i is the only expired stream, the search finds it alone. */
  lemma OnlyExpired(s: State, sec: nat, i: nat)
    requires Inv(s) && IsExpired(s, sec, i) && forall j: nat :: IsExpired(s, sec, j) ==> j == i
    ensures ExpiredBelow(s, sec, s.streamPool.hi) == [i]
  {
    hide IsExpired;
    InWindow(s, i);
    var q := ExpiredBelow(s, sec, s.streamPool.hi);
    ExpiredMember(s, sec, s.streamPool.hi, i);
    JustOne(q, i);
  }

  lemma JustOne(q: seq<nat>, i: nat)
    requires i in q && (forall k :: 0 <= k < |q| ==> q[k] == i) && forall k, l :: 0 <= k < l < |q| ==> q[k] < q[l]
    ensures q == [i]
  {
    assert q[0] == q[|q| - 1];
  }

  lemma InWindow(s: State, i: nat)
    requires Inv(s)
    ensures forall sec :: IsExpired(s, sec, i) ==> s.streamPool.lo < i < s.streamPool.hi
  {
    hide Linked;
    hide QueueOk;
    hide ProductionPools;
    OkIsFramed(s.streamPool);
    hide Ok;
  }

  lemma {:induction false} NoneExpiredBelow(s: State, sec: nat, n: nat)
    requires forall j: nat :: !IsExpired(s, sec, j)
    ensures ExpiredBelow(s, sec, n) == []
    decreases n
  {
    if n > s.streamPool.lo + 1 {
      NoneExpiredBelow(s, sec, n - 1);
    }
  }

  // ----- a stream queued twice -----

  /** The first FIN of a capture, in the part of the minute whose entries wait. */
  lemma FirstFinWaits(p: Packet, isLan: Addr -> bool)
    requires Addressed(p) && Fin(p) && 15 <= p.ts.sec % 60 < 55
    ensures OnPacket(InitialState(), p, isLan).Next?
    ensures Record(InitialState(), p, isLan).Next? && Record(InitialState(), p, isLan).verdict.Counted?
    ensures var s, i := OnPacket(InitialState(), p, isLan).state, Record(InitialState(), p, isLan).verdict.slot;
            && Inv(s) && s.Live() == {i as int} && i < |s.streams| && s.streams[i].tlast == p.ts
            && s.main == [] && s.wait == [i] && s.gone == {} && s.streamMap.Keys == {KeyFor(p)}
            && (forall lan :: TakenFor(s, lan) <= 2)
            && s.lastSec in {0, p.ts.sec}
  {
    hide KeyFor;
    hide Inv;
    hide TakenFor;
    hide Record;
    hide OnPacket;
    var s0 := InitialState();
    StartLeavesRoom(KeyFor(p), isLan);
    RecordNew(s0, p, isLan);
    var t := Record(s0, p, isLan).state;
    assert t.main == [] && t.wait == [Record(s0, p, isLan).verdict.slot];
    assert t.streamMap.Keys == {KeyFor(p)};
    SweepKeepsInv(t, p.ts.sec);
    SameTaken(t, Sweep(t, p.ts.sec));
  }

  /** A pass over main list [j, i] with i waiting as well leaves a dead stream on the list. */
  lemma PassLeavesDead(t: State, sec: nat, i: nat, j: nat)
    requires Inv(t) && t.Live() == {i as int, j as int} && i != j && t.main == [j] && t.wait == [i]
    requires PassRuns(t, sec) && ToMain(sec) && ExpiredBelow(t, sec, t.streamPool.hi) == [i]
    ensures var u := Sweep(t, sec); u.Live() == {} && u.main == [i] && u.wait == [] && !QueuedOnce(u)
  {
    hide Inv;
    hide ExpiredBelow;
    hide CleanAll;
    hide RefsOk;
    hide CountsAgree;
    hide Framed;
    hide Emptied;
    hide QueuedOnce;
    OneQueuedMore(t, sec, i);
    var f := FindExpired(t, sec);
    hide FindExpired;
    assert f == t.(main := [j, i]);
    FitForRelease(t, f);
    CleanAllReleases(f, f.main);
    CleanAllFrame(f, f.main);
    assert SetOf(f.main) == {i as int, j as int} by {
      assert f.main[0] == j && f.main[1] == i;
    }
    DeadIsNotOnce(Sweep(t, sec), i);
  }

  lemma OneQueuedMore(t: State, sec: nat, i: nat)
    requires ToMain(sec) && |t.main| < MAIN_ROOM && ExpiredBelow(t, sec, t.streamPool.hi) == [i]
    ensures FindExpired(t, sec) == t.(main := t.main + [i])
  {
    assert [i][..0] == [];
    assert EnqueueAll(t, sec, []) == t;
  }

  lemma DeadIsNotOnce(s: State, i: nat)
    requires s.main == [i] && i !in s.Live()
    ensures !QueuedOnce(s)
  {
    assert s.main[0] == i && i in s.main;
  }

  lemma FitForRelease(t: State, f: State)
    requires Inv(t) && f == t.(main := f.main)
    ensures RefsOk(f) && CountsAgree(f) && Framed(f.streamPool)
  {
    hide KeyOf;
    hide MapAgrees;
    hide AddrEntries;
    hide QueueOk;
    hide ProductionPools;
    OkIsFramed(t.streamPool);
    hide Ok;
    CountsBridge(f);
    SameCountsFor(t, f);
  }

  lemma SameCountsFor(t: State, f: State)
    requires CountsFor(t, t.Live()) && f == t.(main := f.main)
    ensures CountsFor(f, f.Live())
  {
  }

  /** Any two FIN packets of different conversations, the second more than 30 seconds after the first,
      with the first in seconds 15..54 and the second in 55..59: the pass that the second one starts
      queues the first stream again, releases everything and leaves a dead stream on the list. */
  lemma TwoFinsQueueADeadStream(p1: Packet, p2: Packet, isLan: Addr -> bool)
    requires Addressed(p1) && Addressed(p2) && Fin(p1) && Fin(p2) && KeyFor(p1) != KeyFor(p2)
    requires 15 <= p1.ts.sec % 60 < 55 <= p2.ts.sec % 60
    requires p1.ts.sec + 30 < p2.ts.sec < 0x1_0000_0000
    ensures RunPackets([p1, p2], isLan).Running?
    ensures var s := RunPackets([p1, p2], isLan).state;
            s.Live() == {} && |s.main| == 1 && !QueuedOnce(s)
  {
    hide KeyFor;
    hide Inv;
    hide NoRoomFor;
    hide Record;
    hide Sweep;
    FirstFinWaits(p1, isLan);
    var s0 := InitialState();
    var s1, i := OnPacket(s0, p1, isLan).state, Record(s0, p1, isLan).verdict.slot;
    FewLeaveRoom(s1, KeyFor(p2), isLan);
    RecordNew(s1, p2, isLan);
    var t, j := Record(s1, p2, isLan).state, Record(s1, p2, isLan).verdict.slot;
    TwoRun(p1, p2, isLan, s1);
    hide OnPacket;
    hide InitialState;
    hide RunPackets;
    SecondExpires(t, p1, p2, i, j);
    PassLeavesDead(t, p2.ts.sec, i, j);
  }

  lemma SecondExpires(t: State, p1: Packet, p2: Packet, i: nat, j: nat)
    requires Inv(t) && t.Live() == {i as int, j as int} && i < |t.streams| && j < |t.streams|
    requires t.streams[i].tlast == p1.ts && t.streams[j].tlast == p2.ts
    requires p1.ts.sec + 30 < p2.ts.sec < 0x1_0000_0000
    ensures ExpiredBelow(t, p2.ts.sec, t.streamPool.hi) == [i]
  {
    hide Inv;
    hide ExpiredBelow;
    OnlyExpired(t, p2.ts.sec, i);
  }

  lemma TwoRun(p1: Packet, p2: Packet, isLan: Addr -> bool, s1: State)
    requires OnPacket(InitialState(), p1, isLan).Next? && s1 == OnPacket(InitialState(), p1, isLan).state
    requires |s1.flows| == 6 && OnPacket(s1, p2, isLan).Next?
    ensures RunPackets([p1, p2], isLan) == Running(OnPacket(s1, p2, isLan).state)
  {
    hide OnPacket;
    var pkts := [p1, p2];
    assert pkts[..1] == [p1] && [p1][..0] == [];
    assert RunPackets([], isLan) == Running(InitialState());
    hide InitialState;
    assert RunPackets([p1], isLan) == Running(s1);
  }

  // ----- an address that comes back -----

  /** The first address slot that an empty pool hands out is its midpoint, not slot 256. */
  lemma FirstAddrSlot(s: State, ip: Addr, ts: Tval, isLan: Addr -> bool)
    requires s.lanPool == Init(0, LAN_SIZE) && s.wanPool == Init(LAN_SIZE, NUM_ADDRS - LAN_SIZE) && ip !in s.addrMap
    ensures var r := AddrFor(s, ip, ts, isLan); r.GotAddr? ==> r.idx in {128, 8320} && ip in r.state.addrMap && r.state.addrMap[ip] == r.idx
  {
    hide Alloc;
    hide Init;
    FirstOfPool(0, LAN_SIZE);
    FirstOfPool(LAN_SIZE, NUM_ADDRS - LAN_SIZE);
  }

  lemma FirstOfPool(idxMin: nat, total: nat)
    requires 0 < total && idxMin + total + 2 < 0x8000_0000
    ensures Alloc(Init(idxMin, total)).Handed? && Alloc(Init(idxMin, total)).idx == idxMin + total / 2
  {
    var p := Init(idxMin, total);
    assert FilledTo(p, 0);
    FillStep(p, 0);
  }

  /** A stream created from the initial tables has its left address in one of these slots. */
  lemma FirstStreamSlots(pkt: Packet, key: StreamKey, isLan: Addr -> bool)
    ensures var s := InitialState();
            var r := CreateStream(s.(flows := Bump(s.flows, FLOW_TYPE_TOTAL, pkt.len)), pkt, key, isLan);
            r.Made? ==> key.left in r.state.addrMap && r.state.addrMap[key.left] in {128, 8320}
  {
    hide Alloc;
    hide AddrFor;
    hide FlowType;
    var s0 := InitialState();
    var s := s0.(flows := Bump(s0.flows, FLOW_TYPE_TOTAL, pkt.len));
    var r := CreateStream(s, pkt, key, isLan);
    if r.Made? {
      var s1 := s.(streamPool := Alloc(s.streamPool).pool, streamMap := s.streamMap[key := r.slot]);
      FirstAddrSlot(s1, key.left, pkt.ts, isLan);
      AddrForMaps(AddrFor(s1, key.left, pkt.ts, isLan).state, key.right, pkt.ts, isLan);
    }
  }

  /** The first packet of a capture puts its left address in such a slot. */
  lemma FirstLeftSlot(p: Packet, isLan: Addr -> bool)
    requires Addressed(p) && Record(InitialState(), p, isLan).Next?
    ensures var t := Record(InitialState(), p, isLan).state;
            KeyFor(p).left in t.addrMap ==> t.addrMap[KeyFor(p).left] in {128, 8320}
  {
    hide InitV4;
    hide CreateStream;
    hide Track;
    hide Bump;
    var (key, flipped) := InitV4(p.ipproto, p.src, p.dst);
    var s0 := InitialState();
    var s := s0.(flows := Bump(s0.flows, FLOW_TYPE_TOTAL, p.len));
    FirstStreamSlots(p, key, isLan);
    assert s0.streamMap == map[];
    hide InitialState;
    var r := CreateStream(s, p, key, isLan);
    if r.Made? {
      CreateShape(s, p, key, isLan);
      TrackShape(r.state, r.slot, p, flipped);
    }
  }

  /** Releasing the only stream takes its left address slot out of the pools. */
  lemma OnlyStreamReleased(t: State, i: nat)
    requires Inv(t) && t.Live() == {i as int} && HasRefs(t, i) && t.streams[i].idxLeft != LAN_SIZE
    ensures var u := CleanOne(t, i);
            && u.Live() == {} && t.streams[i].idxLeft !in u.LiveAddrs() && SplitPools(u)
            && u.streamMap == t.streamMap - {KeyOf(t, i)} && SameQueues(t, u)
            && Ok(u.streamPool) && u.streamPool.idxMin == t.streamPool.idxMin && u.streamPool.total == t.streamPool.total
            && AddrEntries(u)
  {
    hide KeyOf;
    hide MapAgrees;
    hide AddrEntries;
    hide QueueOk;
    hide SplitPools;
    hide Framed;
    hide ReleaseAddrs;
    hide Free;
    var ss := t.streams[i];
    OkIsFramed(t.streamPool);
    CountsBridge(t);
    CleanOneShape(t, i);
    CleanOneLinked(t, i);
    var s1 := t.(streamMap := t.streamMap - {KeyOf(t, i)});
    LastEndGoes(t, i);
    SplitIsOfPools(t, s1);
    EmptiedSlotLeaves(s1, ss.idxLeft, ss.idxRight);
    FreeOkIffAnchored(t.streamPool, i);
    FreeKeepsRange(t.streamPool, i);
    hide Ok;
  }

  lemma FreeKeepsRange(p: Pool, i: nat)
    ensures Free(p, i).idxMin == p.idxMin && Free(p, i).total == p.total
  {
  }

  /** The count of the only stream's left slot drops to zero. */
  lemma LastEndGoes(t: State, i: nat)
    requires CountsFor(t, t.Live()) && t.Live() == {i as int} && HasRefs(t, i)
    ensures var l, r := t.streams[i].idxLeft, t.streams[i].idxRight;
            DecActive(DecActive(t.addrs, l), r)[l].nstreamsActive == 0
  {
    var l := t.streams[i].idxLeft;
    EndpointsRemove(t.streams, t.Live(), i, l, |t.streams|);
    assert t.Live() - {i as int} == {};
    NoEndpoints(t.streams, {}, l, |t.streams|);
  }

  lemma EmptiedSlotLeaves(s: State, l: nat, r: nat)
    requires l < |s.addrs| && r < |s.addrs| && l != LAN_SIZE && SplitPools(s)
    requires DecActive(DecActive(s.addrs, l), r)[l].nstreamsActive == 0
    ensures l !in ReleaseAddrs(s, l, r).LiveAddrs()
  {
    hide AddrFree;
    hide SplitPools;
    hide DecActive;
    var addrs := DecActive(DecActive(s.addrs, l), r);
    var s1 := s.(addrs := addrs);
    SplitIsOfPools(s, s1);
    AddrFreeNotes(s1, l);
    AddrFreeNotes(AddrFree(s1, l), r);
  }

  /** What the program holds after a capture of one FIN in seconds 55..59: the stream is gone, its left
      address is still found, in a slot that is not taken. */
  ghost predicate LeftBehind(s: State, key: StreamKey) {
    && s.Live() == {} && Ok(s.streamPool) && s.streamPool.idxMin == 0 && s.streamPool.total == NUM_STREAMS == |s.streams|
    && key !in s.streamMap && AddrEntries(s) && key.left in s.addrMap && key.right in s.addrMap
    && s.addrMap[key.left] !in s.LiveAddrs() && s.main == [] && |s.flows| == 6
  }

  lemma FirstFinGoes(p: Packet, isLan: Addr -> bool)
    requires Addressed(p) && Fin(p) && 55 <= p.ts.sec % 60 && p.ts.sec < 0x1_0000_0000
    ensures OnPacket(InitialState(), p, isLan).Next?
    ensures LeftBehind(OnPacket(InitialState(), p, isLan).state, KeyFor(p))
  {
    hide KeyFor;
    hide Inv;
    hide TakenFor;
    hide Record;
    hide OnPacket;
    var s0 := InitialState();
    StartLeavesRoom(KeyFor(p), isLan);
    RecordNew(s0, p, isLan);
    FirstLeftSlot(p, isLan);
    var t, i := Record(s0, p, isLan).state, Record(s0, p, isLan).verdict.slot;
    assert t.main == [i] && t.wait == [];
    assert t.lastSec == 0 && t.Live() == {i as int};
    hide InitialState;
    PassReleasesOnly(t, p, i);
  }

  lemma PassReleasesOnly(t: State, p: Packet, i: nat)
    requires Inv(t) && t.Live() == {i as int} && HasRefs(t, i) && t.streams[i].tlast == p.ts
    requires t.main == [i] && t.wait == [] && t.lastSec == 0 && 55 <= p.ts.sec % 60 && p.ts.sec < 0x1_0000_0000
    requires KeyFor(p) in t.streamMap && t.streamMap[KeyFor(p)] == i
    requires KeyFor(p).left in t.addrMap && t.streams[i].idxLeft == t.addrMap[KeyFor(p).left] && t.streams[i].idxLeft != LAN_SIZE
    ensures LeftBehind(Sweep(t, p.ts.sec), KeyFor(p))
  {
    hide KeyFor;
    hide Inv;
    hide KeyOf;
    hide AddrEntries;
    hide Free;
    hide Ok;
    hide CleanOne;
    SettledEnds(t, KeyFor(p));
    RightIsKnown(t, i, KeyFor(p));
    InvSizes(t);
    NoneExpiredBelow(t, p.ts.sec, t.streamPool.hi);
    assert FindExpired(t, p.ts.sec) == t;
    OnlyStreamReleased(t, i);
    var u := CleanOne(t, i);
    CleanAllOfOne(t, i);
    hide CleanAll;
    hide FindExpired;
    EntriesTransfer(u, Sweep(t, p.ts.sec));
  }

  lemma CleanAllOfOne(t: State, i: nat)
    requires HasRefs(t, i)
    ensures CleanAll(t, [i]) == CleanOne(t, i)
  {
    hide CleanOne;
    assert [i][..0] == [];
    assert CleanAll(t, []) == t;
  }

  lemma InvSizes(t: State)
    requires Inv(t)
    ensures t.streamPool.idxMin == 0 && t.streamPool.total == NUM_STREAMS == |t.streams| && |t.flows| == 6
  {
    hide Linked;
    hide QueueOk;
    hide Ok;
  }

  lemma RightIsKnown(t: State, i: nat, key: StreamKey)
    requires Inv(t) && i in t.Live() && HasRefs(t, i) && KeyOf(t, i) == key && AddrEntries(t)
    requires t.streams[i].idxLeft in t.LiveAddrs() && t.streams[i].idxRight in t.LiveAddrs()
    ensures key.left in t.addrMap && key.right in t.addrMap
  {
    var l, r := t.streams[i].idxLeft, t.streams[i].idxRight;
    assert t.addrs[l].addrOffset in t.addrMap && t.addrs[r].addrOffset in t.addrMap;
    hide Inv;
    assert key.left in {t.addrs[l].addrOffset, t.addrs[r].addrOffset};
    assert key.right in {t.addrs[l].addrOffset, t.addrs[r].addrOffset};
  }

  /** The next packet of that conversation opens a stream on the slot that is not taken. */
  lemma StreamOnFreeSlot(s: State, p: Packet, isLan: Addr -> bool)
    requires LeftBehind(s, KeyFor(p)) && Addressed(p) && !Fin(p)
    ensures OnPacket(s, p, isLan).Next?
    ensures var t := OnPacket(s, p, isLan).state;
            exists j: nat :: j in t.Live() && j < |t.streams| && t.streams[j].idxLeft !in t.LiveAddrs()
  {
    hide InitV4;
    hide Track;
    hide Bump;
    hide Ok;
    hide AddrEntries;
    hide FlowType;
    var (key, flipped) := InitV4(p.ipproto, p.src, p.dst);
    var s1 := s.(flows := Bump(s.flows, FLOW_TYPE_TOTAL, p.len));
    FirstSlotAgain(s.streamPool);
    KnownSlots(s, key);
    var r := CreateStream(s1, p, key, isLan);
    assert r.Made?;
    CreateRestKnown(s1, p, key, isLan);
    TrackShape(r.state, r.slot, p, flipped);
    TrackRest(r.state, r.slot, p, flipped);
    var t := Track(r.state, r.slot, p, flipped);
    assert t.main == [];
    assert OnPacket(s, p, isLan) == Next(Sweep(t, p.ts.sec), Counted(r.slot));
    assert r.slot in Sweep(t, p.ts.sec).Live();
  }

  lemma FirstSlotAgain(p: Pool)
    requires Ok(p) && p.taken == {} && p.idxMin == 0 && p.total == NUM_STREAMS
    ensures Alloc(p).Handed? && Alloc(p).idx < NUM_STREAMS && Alloc(p).pool.taken == {Alloc(p).idx}
  {
    LastSlotComesLast(p);
    AllocOk(p);
    hide Alloc;
  }

  lemma KnownSlots(s: State, key: StreamKey)
    requires AddrEntries(s) && key.left in s.addrMap && key.right in s.addrMap
    ensures s.addrMap[key.left] < |s.addrs| && s.addrMap[key.right] < |s.addrs|
  {
  }

  /** A stream created on two known addresses takes no address slot, and nothing is queued. */
  lemma CreateRestKnown(s: State, pkt: Packet, key: StreamKey, isLan: Addr -> bool)
    requires key.left in s.addrMap && key.right in s.addrMap
    ensures var r := CreateStream(s, pkt, key, isLan);
            r.Made? ==>
              && HasRefs(r.state, r.slot) && !HasCleanup(r.state.streams[r.slot].flowflags)
              && r.state.LiveAddrs() == s.LiveAddrs() && r.state.main == s.main && r.state.flows == s.flows
              && r.state.streams[r.slot].idxLeft == s.addrMap[key.left]
              && r.state.streamPool == Alloc(s.streamPool).pool && r.slot == Alloc(s.streamPool).idx
  {
    hide Alloc;
  }

  /** A FIN in seconds 55..59 and then any packet of the same conversation that is not a FIN or RST: the
      capture ends with a live stream whose left address slot is not taken. */
  lemma ReturningAddressHasNoSlot(p1: Packet, p2: Packet, isLan: Addr -> bool)
    requires Addressed(p1) && Fin(p1) && !Fin(p2) && KeyFor(p2) == KeyFor(p1)
    requires 55 <= p1.ts.sec % 60 && p1.ts.sec < 0x1_0000_0000
    ensures RunPackets([p1, p2], isLan).Running?
    ensures var s := RunPackets([p1, p2], isLan).state;
            !Inv(s) && exists j: nat :: j in s.Live() && j < |s.streams| && s.streams[j].idxLeft !in s.LiveAddrs()
  {
    hide KeyFor;
    FirstFinGoes(p1, isLan);
    var s1 := OnPacket(InitialState(), p1, isLan).state;
    StreamOnFreeSlot(s1, p2, isLan);
    TwoRun(p1, p2, isLan, s1);
    hide OnPacket;
    hide InitialState;
    hide RunPackets;
    var s := RunPackets([p1, p2], isLan).state;
    if Inv(s) {
      LiveEndsAreTaken(s);
    }
    hide Inv;
  }

  lemma LiveEndsAreTaken(s: State)
    requires Inv(s)
    ensures forall j: nat :: j in s.Live() && j < |s.streams| ==> s.streams[j].idxLeft in s.LiveAddrs()
  {
    hide KeyOf;
    hide MapAgrees;
    hide AddrEntries;
  }
}
