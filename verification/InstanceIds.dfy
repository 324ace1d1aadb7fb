// Instance ids: the report refers to streams and addresses by them.
module InstanceIds {
  import opened Words
  import opened SlotPool
  import opened StreamKeys
  import opened Structs
  import opened Lifecycle
  import opened Capture
  import opened Tenancy
  import opened Directions

  /** Live streams have different ids, all below the next one. */
  ghost predicate StreamIds(s: State) {
    && (forall i: nat :: i in s.Live() && i < |s.streams| ==> s.streams[i].iid < s.nextStream)
    && (forall i: nat, j: nat :: i in s.Live() && j in s.Live() && i < j < |s.streams| ==> s.streams[i].iid != s.streams[j].iid)
  }

  ghost predicate AddrIds(s: State) {
    && (forall a: nat :: a in s.LiveAddrs() && a < |s.addrs| ==> s.addrs[a].iid < s.nextAddr)
    && (forall a: nat, b: nat :: a in s.LiveAddrs() && b in s.LiveAddrs() && a < b < |s.addrs| ==> s.addrs[a].iid != s.addrs[b].iid)
  }

  ghost predicate SameIds(s: State, t: State) {
    && |t.streams| == |s.streams| && |t.addrs| == |s.addrs| && t.nextStream == s.nextStream && t.nextAddr == s.nextAddr
    && (forall i :: 0 <= i < |s.streams| ==> t.streams[i].iid == s.streams[i].iid)
    && (forall a :: 0 <= a < |s.addrs| ==> t.addrs[a].iid == s.addrs[a].iid)
  }

  lemma SameIdsKeep(s: State, t: State)
    requires SameIds(s, t) && t.Live() <= s.Live() && t.LiveAddrs() <= s.LiveAddrs()
    ensures StreamIds(s) ==> StreamIds(t)
    ensures AddrIds(s) ==> AddrIds(t)
  {
  }

  lemma TrackIds(s: State, i: nat, pkt: Packet, flipped: bool)
    requires HasRefs(s, i) && |s.flows| == 6
    ensures SameIds(s, Track(s, i, pkt, flipped))
    ensures var t := Track(s, i, pkt, flipped); t.Live() == s.Live() && t.LiveAddrs() == s.LiveAddrs()
  {
    hide NoteFlags;
    hide IncStreamCounters;
    hide Bump;
    NoteIds(s, i, pkt);
    CountersIds(NoteFlags(s, i, pkt), i, flipped, pkt.len);
  }

  lemma NoteIds(s: State, i: nat, pkt: Packet)
    requires HasRefs(s, i)
    ensures var t := NoteFlags(s, i, pkt);
            && SameIds(s, t) && HasRefs(t, i) && t.streamPool == s.streamPool && t.lanPool == s.lanPool && t.wanPool == s.wanPool
            && t.flows == s.flows
  {
    hide HasCleanup;
    hide SetCleanup;
  }

  lemma CountersIds(s: State, i: nat, flipped: bool, len: nat)
    requires HasRefs(s, i)
    ensures var t := IncStreamCounters(s, i, flipped, len);
            && SameIds(s, t) && t.streamPool == s.streamPool && t.lanPool == s.lanPool && t.wanPool == s.wanPool
            && t.flows == s.flows
  {
    hide U32;
    hide U16;
  }

  /** What is handed out was free, whatever the pool. */
  lemma AllocHandsFree(p: Pool)
    ensures Alloc(p).Handed? ==> Alloc(p).idx !in p.taken && Alloc(p).pool.taken == p.taken + {Alloc(p).idx}
  {
  }

  lemma AddrForIds(s: State, ip: Addr, ts: Tval, isLan: Addr -> bool)
    requires AddrIds(s)
    ensures var r := AddrFor(s, ip, ts, isLan);
            r.GotAddr? ==>
              && AddrIds(r.state) && r.state.streams == s.streams && r.state.streamPool == s.streamPool
              && r.state.nextStream == s.nextStream && r.state.nextAddr >= s.nextAddr && |r.state.addrs| == |s.addrs|
  {
    hide Alloc;
    AllocHandsFree(s.lanPool);
    AllocHandsFree(s.wanPool);
  }

  /** A created stream takes the next id; the others keep theirs. */
  lemma CreateIds(s: State, pkt: Packet, key: StreamKey, isLan: Addr -> bool)
    requires StreamIds(s) && AddrIds(s)
    ensures var r := CreateStream(s, pkt, key, isLan);
            r.Made? ==>
              && StreamIds(r.state) && AddrIds(r.state) && r.slot < |r.state.streams|
              && r.state.streams[r.slot].iid == s.nextStream && r.state.nextStream == s.nextStream + 1
              && r.state.nextAddr >= s.nextAddr
  {
    hide Alloc;
    hide AddrFor;
    hide FlowType;
    hide AddrIds;
    AllocHandsFree(s.streamPool);
    var r := CreateStream(s, pkt, key, isLan);
    if r.Made? {
      var s1 := s.(streamPool := Alloc(s.streamPool).pool, streamMap := s.streamMap[key := r.slot]);
      SameAddrIds(s, s1);
      AddrForIds(s1, key.left, pkt.ts, isLan);
      var s2 := AddrFor(s1, key.left, pkt.ts, isLan).state;
      AddrForIds(s2, key.right, pkt.ts, isLan);
      SameAddrIds(AddrFor(s2, key.right, pkt.ts, isLan).state, r.state);
    }
  }

  lemma SameAddrIds(s: State, t: State)
    requires AddrIds(s) && t.addrs == s.addrs && t.nextAddr == s.nextAddr && t.lanPool == s.lanPool && t.wanPool == s.wanPool
    ensures AddrIds(t)
  {
  }

  /** Ids never go back: a stream created later has a larger one. */
  lemma RecordIds(s: State, pkt: Packet, isLan: Addr -> bool)
    requires StreamIds(s) && AddrIds(s) && |s.flows| == 6 && Record(s, pkt, isLan).Next?
    ensures var t := Record(s, pkt, isLan).state;
            && StreamIds(t) && AddrIds(t) && s.nextStream <= t.nextStream <= s.nextStream + 1 && s.nextAddr <= t.nextAddr
    ensures var r, key := Record(s, pkt, isLan), InitV4(pkt.ipproto, pkt.src, pkt.dst).0;
            r.verdict.Counted? ==>
              && r.verdict.slot < |r.state.streams|
              && (key !in s.streamMap ==> r.state.streams[r.verdict.slot].iid == s.nextStream < r.state.nextStream)
              && (key in s.streamMap ==> r.state.nextStream == s.nextStream && r.verdict.slot < |s.streams|)
              && (key in s.streamMap ==> r.state.streams[r.verdict.slot].iid == s.streams[r.verdict.slot].iid)
  {
    hide InitV4;
    hide CreateStream;
    hide Track;
    hide Bump;
    hide StreamIds;
    hide AddrIds;
    var (key, flipped) := InitV4(pkt.ipproto, pkt.src, pkt.dst);
    var s1 := s.(flows := Bump(s.flows, FLOW_TYPE_TOTAL, pkt.len));
    SameIdsKeep(s, s1);
    if key in s.streamMap {
      if HasRefs(s1, s.streamMap[key]) {
        TrackIds(s1, s.streamMap[key], pkt, flipped);
        SameIdsKeep(s1, Track(s1, s.streamMap[key], pkt, flipped));
      }
    } else {
      var r := CreateStream(s1, pkt, key, isLan);
      CreateIds(s1, pkt, key, isLan);
      if r.Made? && HasRefs(r.state, r.slot) && |r.state.flows| == 6 {
        TrackIds(r.state, r.slot, pkt, flipped);
        SameIdsKeep(r.state, Track(r.state, r.slot, pkt, flipped));
      } else {
        SameIdsKeep(s1, s1.(refused := Flow(s.refused.packets + 1, s.refused.bytes + pkt.len)));
      }
    }
  }

  lemma SweepIds(s: State, sec: nat)
    requires StreamIds(s) && AddrIds(s)
    ensures StreamIds(Sweep(s, sec)) && AddrIds(Sweep(s, sec))
    ensures Sweep(s, sec).nextStream == s.nextStream && Sweep(s, sec).nextAddr == s.nextAddr
  {
    hide StreamIds;
    hide AddrIds;
    hide CleanAll;
    hide FindExpired;
    hide PassRuns;
    hide SameKeys;
    SweepKeys(s, sec);
    SweepIsRelease(s, sec);
    var f := FindExpired(s, sec);
    CleanAllFrame(f, f.main);
    hide Sweep;
    SameIdsKeep(s, Sweep(s, sec));
  }

  lemma StartIds()
    ensures StreamIds(InitialState()) && AddrIds(InitialState())
  {
  }

  /** On every run, whatever its packets, live streams have different ids and so have live addresses. */
  lemma {:induction false} EveryRunHasIds(pkts: seq<Packet>, isLan: Addr -> bool)
    ensures var o := RunPackets(pkts, isLan); o.Running? ==> StreamIds(o.state) && AddrIds(o.state)
    decreases |pkts|
  {
    hide StreamIds;
    hide AddrIds;
    hide Record;
    hide Sweep;
    hide LeavesTable;
    hide InitialState;
    if pkts == [] {
      StartIds();
    } else {
      var n := |pkts| - 1;
      EveryRunHasIds(pkts[..n], isLan);
      var o := RunPackets(pkts[..n], isLan);
      if o.Running? && |o.state.flows| == 6 && Record(o.state, pkts[n], isLan).Next? {
        RecordIds(o.state, pkts[n], isLan);
        SweepIds(Record(o.state, pkts[n], isLan).state, pkts[n].ts.sec);
      }
    }
  }
}
