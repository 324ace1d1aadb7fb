// Slot flags: the pools test tstart.tv_sec of the records themselves, so a slot is taken exactly
// while its record shows a start time.
module Liveness {
  import opened Words
  import opened SlotPool
  import opened StreamKeys
  import opened Structs
  import opened Lifecycle
  import opened Capture
  import opened Tenancy

  ghost predicate TimedStreams(s: State) {
    forall i: nat :: i < |s.streams| ==> (i in s.Live() <==> !EmptySlot(s.streams[i].tstart))
  }

  ghost predicate TimedAddrs(s: State) {
    forall a: nat :: a < |s.addrs| ==> (a in s.LiveAddrs() <==> !EmptySlot(s.addrs[a].tstart))
  }

  /** What the pools take for taken is what the records show. */
  ghost predicate Timed(s: State) {
    TimedStreams(s) && TimedAddrs(s)
  }

  ghost predicate Apart(s: State) {
    s.lanPool.taken !! s.wanPool.taken
  }

  // ----- releasing -----

  lemma FreeTakes(p: Pool, i: nat)
    ensures Free(p, i).taken == if Releases(p, i) then p.taken - {i} else p.taken
  {
    hide ShrinkLo;
    hide ShrinkHi;
  }

  lemma AddrFreeTimed(s: State, a: nat)
    requires TimedAddrs(s) && Apart(s)
    ensures TimedAddrs(AddrFree(s, a)) && Apart(AddrFree(s, a))
  {
    FreeTakes(s.lanPool, a);
    FreeTakes(s.wanPool, a);
    hide Free;
  }

  lemma ReleaseAddrsTimed(s: State, l: nat, r: nat)
    requires l < |s.addrs| && r < |s.addrs| && TimedAddrs(s) && Apart(s)
    ensures TimedAddrs(ReleaseAddrs(s, l, r)) && Apart(ReleaseAddrs(s, l, r))
  {
    hide AddrFree;
    var addrs := DecActive(DecActive(s.addrs, l), r);
    var s1 := s.(addrs := addrs);
    assert forall a :: 0 <= a < |addrs| ==> addrs[a].tstart == s.addrs[a].tstart;
    AddrFreeTimed(s1, l);
    var s2 := if addrs[l].nstreamsActive == 0 then AddrFree(s1, l) else s1;
    AddrFreeTimed(s2, r);
  }

  lemma CleanOneTimed(s: State, i: nat)
    requires HasRefs(s, i) && Timed(s) && Apart(s)
    ensures Timed(CleanOne(s, i)) && Apart(CleanOne(s, i))
  {
    hide Free;
    hide KeyOf;
    FreeTakes(s.streamPool, i);
    var s1 := s.(streamMap := s.streamMap - {KeyOf(s, i)});
    ReleaseAddrsTimed(s1, s.streams[i].idxLeft, s.streams[i].idxRight);
    hide ReleaseAddrs;
  }

  /** Releasing any list of slots, live or not, keeps flags and pools in step. */
  lemma {:induction false} CleanAllTimed(s: State, slots: seq<nat>)
    requires Timed(s) && Apart(s)
    ensures Timed(CleanAll(s, slots)) && Apart(CleanAll(s, slots))
    decreases |slots|
  {
    if slots != [] {
      hide Timed;
      hide Apart;
      hide CleanOne;
      var t := CleanAll(s, slots[..|slots| - 1]);
      CleanAllTimed(s, slots[..|slots| - 1]);
      if HasRefs(t, slots[|slots| - 1]) {
        CleanOneTimed(t, slots[|slots| - 1]);
      }
    }
  }

  lemma SweepTimed(s: State, sec: nat)
    requires Timed(s) && Apart(s)
    ensures Timed(Sweep(s, sec))
  {
    hide CleanAll;
    hide FindExpired;
    FindExpiredFrame(s, sec);
    var t := FindExpired(s, sec);
    assert Timed(t) && Apart(t);
    CleanAllTimed(t, t.main);
  }

  // ----- counting and creating -----

  lemma TrackTimed(s: State, i: nat, pkt: Packet, flipped: bool)
    requires HasRefs(s, i) && |s.flows| == 6 && Timed(s)
    ensures Timed(Track(s, i, pkt, flipped))
  {
    hide HasCleanup;
    var t := Track(s, i, pkt, flipped);
    TrackShape(s, i, pkt, flipped);
    assert t.streams[i].tstart == s.streams[i].tstart;
    AddrStartsStay(s, i, pkt, flipped);
    hide Track;
  }

  lemma AddrStartsStay(s: State, i: nat, pkt: Packet, flipped: bool)
    requires HasRefs(s, i) && |s.flows| == 6
    ensures var t := Track(s, i, pkt, flipped);
            |t.addrs| == |s.addrs| && forall a :: 0 <= a < |s.addrs| ==> t.addrs[a].tstart == s.addrs[a].tstart
  {
    NoteShape(s, i, pkt);
    hide NoteFlags;
    CounterStarts(NoteFlags(s, i, pkt), i, flipped, pkt.len);
    hide IncStreamCounters;
  }

  lemma CounterStarts(s: State, i: nat, flipped: bool, len: nat)
    requires HasRefs(s, i)
    ensures var t := IncStreamCounters(s, i, flipped, len);
            |t.addrs| == |s.addrs| && forall a :: 0 <= a < |s.addrs| ==> t.addrs[a].tstart == s.addrs[a].tstart
  {
    hide U32;
    hide U16;
  }

  lemma AddrForTimed(s: State, ip: Addr, ts: Tval, isLan: Addr -> bool)
    requires ProductionPools(s) && TimedAddrs(s) && ts.sec > 0
    ensures var r := AddrFor(s, ip, ts, isLan);
            r.GotAddr? ==>
              && ProductionPools(r.state) && TimedAddrs(r.state)
              && r.state.streams == s.streams && r.state.streamPool == s.streamPool
  {
    hide ProductionPools;
    hide TimedAddrs;
    if ip !in s.addrMap {
      AddrAllocShape(s, ip, ts, isLan(ip));
      hide AddrAlloc;
      var r := AddrAlloc(s, ip, ts, isLan(ip));
      if r.GotAddr? {
        OneMoreTimed(s, r.state, r.idx);
      }
    }
  }

  lemma OneMoreTimed(s: State, t: State, a: nat)
    requires TimedAddrs(s) && a < |s.addrs| == |t.addrs| && t.LiveAddrs() == s.LiveAddrs() + {a}
    requires forall b :: 0 <= b < |s.addrs| && b != a ==> t.addrs[b] == s.addrs[b]
    requires !EmptySlot(t.addrs[a].tstart)
    ensures TimedAddrs(t)
  {
  }

  lemma CreateTimed(s: State, pkt: Packet, key: StreamKey, isLan: Addr -> bool)
    requires ProductionPools(s) && Ok(s.streamPool) && Timed(s) && pkt.ts.sec > 0
    ensures var r := CreateStream(s, pkt, key, isLan);
            r.Made? ==> Timed(r.state)
  {
    hide ProductionPools;
    hide Alloc;
    hide Ok;
    hide AddrFor;
    AllocOk(s.streamPool);
    var r := CreateStream(s, pkt, key, isLan);
    if r.Made? {
      var s1 := s.(streamPool := Alloc(s.streamPool).pool, streamMap := s.streamMap[key := r.slot]);
      SamePools(s, s1);
      AddrForTimed(s1, key.left, pkt.ts, isLan);
      AddrForTimed(AddrFor(s1, key.left, pkt.ts, isLan).state, key.right, pkt.ts, isLan);
    }
  }

  /** Creating a stream keeps pools and records in step exactly when the packet is later than second
      zero: a slot whose record shows second zero is free to the program. */
  lemma CreateTimedIff(s: State, pkt: Packet, key: StreamKey, isLan: Addr -> bool)
    requires ProductionPools(s) && Ok(s.streamPool) && Timed(s)
    ensures var r := CreateStream(s, pkt, key, isLan);
            r.Made? ==> (Timed(r.state) <==> pkt.ts.sec > 0)
  {
    if pkt.ts.sec > 0 {
      CreateTimed(s, pkt, key, isLan);
    }
    CreateShows(s, pkt, key, isLan);
    hide CreateStream;
    hide ProductionPools;
    hide Ok;
  }

  lemma CreateShows(s: State, pkt: Packet, key: StreamKey, isLan: Addr -> bool)
    requires Ok(s.streamPool)
    ensures var r := CreateStream(s, pkt, key, isLan);
            r.Made? ==> r.slot in r.state.Live() && r.slot < |r.state.streams| && r.state.streams[r.slot].tstart == pkt.ts
  {
    hide Ok;
    hide Alloc;
    hide AddrFor;
    AllocOk(s.streamPool);
    var r := CreateStream(s, pkt, key, isLan);
    if r.Made? {
      var s1 := s.(streamPool := Alloc(s.streamPool).pool, streamMap := s.streamMap[key := r.slot]);
      AddrForKeepsStreams(s1, key.left, pkt.ts, isLan);
      AddrForKeepsStreams(AddrFor(s1, key.left, pkt.ts, isLan).state, key.right, pkt.ts, isLan);
    }
  }

  // ----- runs -----

  lemma RecordTimed(s: State, pkt: Packet, isLan: Addr -> bool)
    requires Inv(s) && Timed(s) && pkt.ts.sec > 0 && |s.flows| == 6 && Record(s, pkt, isLan).Next?
    ensures Timed(Record(s, pkt, isLan).state)
  {
    hide InitV4;
    hide CreateStream;
    hide Track;
    hide Linked;
    hide QueueOk;
    hide Ok;
    hide ProductionPools;
    var (key, flipped) := InitV4(pkt.ipproto, pkt.src, pkt.dst);
    var s1 := s.(flows := Bump(s.flows, FLOW_TYPE_TOTAL, pkt.len));
    assert Timed(s1);
    SamePools(s, s1);
    CreateTimed(s1, pkt, key, isLan);
    hide Timed;
    if !(key.left == 0 || key.right == 0) {
      if key in s.streamMap {
        TrackTimed(s1, s.streamMap[key], pkt, flipped);
      } else {
        var r := CreateStream(s1, pkt, key, isLan);
        if r.Made? {
          TrackTimed(r.state, r.slot, pkt, flipped);
        } else {
          SameRecords(s1, Record(s, pkt, isLan).state);
        }
      }
    }
  }

  lemma SameRecords(s: State, t: State)
    requires Timed(s) && t == s.(flows := t.flows, refused := t.refused)
    ensures Timed(t)
  {
  }

  lemma StepTimed(s: State, pkt: Packet, isLan: Addr -> bool)
    requires Inv(s) && StepFits(s, pkt, isLan) && Timed(s) && pkt.ts.sec > 0 && |s.flows| == 6
    requires OnPacket(s, pkt, isLan).Next?
    ensures Timed(OnPacket(s, pkt, isLan).state)
  {
    hide Timed;
    hide Record;
    hide Sweep;
    hide LeavesTable;
    RecordTimed(s, pkt, isLan);
    RecordKeepsInv(s, pkt, isLan);
    hide Inv;
    var r := Record(s, pkt, isLan);
    InvIsApart(r.state);
    SweepTimed(r.state, pkt.ts.sec);
  }

  lemma InvIsApart(s: State)
    requires Inv(s)
    ensures Apart(s)
  {
    hide Linked;
    hide QueueOk;
    hide Ok;
    PoolsAreDisjoint(s);
  }

  lemma InitialTimed()
    ensures Timed(InitialState())
  {
  }

  /** On every run that keeps the invariant, with packets later than second zero, the slots the
      pools hold are those whose record shows a start time. */
  lemma {:induction false} EveryRunKeepsFlags(pkts: seq<Packet>, isLan: Addr -> bool)
    requires RunFits(pkts, isLan)
    requires forall k :: 0 <= k < |pkts| ==> pkts[k].ts.sec > 0
    ensures RunPackets(pkts, isLan).Running? ==> Timed(RunPackets(pkts, isLan).state)
    decreases |pkts|
  {
    hide Inv;
    hide OnPacket;
    hide StepFits;
    hide InitialState;
    hide Timed;
    if pkts == [] {
      InitialTimed();
    } else {
      var n := |pkts| - 1;
      RunFitsBefore(pkts, isLan);
      EveryRunKeepsInv(pkts[..n], isLan);
      EveryRunKeepsFlags(pkts[..n], isLan);
      var o := RunPackets(pkts[..n], isLan);
      if o.Running? && |o.state.flows| == 6 && OnPacket(o.state, pkts[n], isLan).Next? {
        StepTimed(o.state, pkts[n], isLan);
      }
    }
  }

  // ----- a reused address slot -----

  /** A new address starts from zero in all its counters exactly when the slot's previous tenant
      had received no bytes: the received bytes are not reset. */
  lemma NewAddressStartsClean(s: State, ip: Addr, ts: Tval, lan: bool)
    ensures var r := AddrAlloc(s, ip, ts, lan);
            r.GotAddr? && r.idx < |s.addrs| ==>
              var a := r.state.addrs[r.idx];
              && a.addrOffset == ip && a.internal == lan && a.tstart == ts && a.nstreamsActive == 0
              && (a.txpackets == a.txbytes == a.rxpackets == a.rxbytes == 0 <==> s.addrs[r.idx].rxbytes == 0)
  {
    hide Alloc;
  }
}
