// Runs whose cleanup lists are fed by FIN and RST alone: there a queued stream carries its cleanup flag,
// so that it is never queued a second time.
module Queues {
  import opened Words
  import opened SlotPool
  import opened StreamKeys
  import opened Structs
  import opened Lifecycle
  import opened Capture
  import opened Tenancy

  ghost predicate Flagged(s: State) {
    forall x: nat :: Queued(s, x) && x < |s.streams| ==> HasCleanup(s.streams[x].flowflags)
  }

  /** What remains to be asked of a packet when queued streams are flagged. */
  ghost predicate Welcome(s: State, pkt: Packet) {
    var key := InitV4(pkt.ipproto, pkt.src, pkt.dst).0;
    if key in s.streamMap
    then s.streamMap[key] < |s.streams| ==> s.streams[s.streamMap[key]].packets != 0
    else Usable(s, key.left) && Usable(s, key.right)
  }

  /** A pass that puts no expired stream on the wait list. */
  ghost predicate NoneWaits(s: State, sec: nat) {
    PassRuns(s, sec) && ListsFit(s) && !ToMain(sec) ==> Accepted(s, sec, ExpiredBelow(s, sec, s.streamPool.hi)) == []
  }

  ghost predicate StepIsQuiet(s: State, pkt: Packet, isLan: Addr -> bool) {
    && Welcome(s, pkt)
    && (|s.flows| == 6 && Record(s, pkt, isLan).Next? && Record(s, pkt, isLan).verdict.Counted? ==>
          var t := Record(s, pkt, isLan).state; SweepFits(t, pkt.ts.sec) && NoneWaits(t, pkt.ts.sec))
  }

  ghost predicate RunIsQuiet(pkts: seq<Packet>, isLan: Addr -> bool) {
    forall k :: 0 <= k < |pkts| && RunPackets(pkts[..k], isLan).Running? ==>
      StepIsQuiet(RunPackets(pkts[..k], isLan).state, pkts[k], isLan)
  }

  lemma FlaggedIsAdmissible(s: State, pkt: Packet)
    requires Flagged(s) && Welcome(s, pkt)
    ensures Admissible(s, pkt)
  {
    hide InitV4;
    hide HasCleanup;
    hide Usable;
  }

  lemma TrackFlagged(s: State, i: nat, pkt: Packet, flipped: bool)
    requires HasRefs(s, i) && |s.flows| == 6 && Flagged(s)
    ensures Flagged(Track(s, i, pkt, flipped))
  {
    hide IncAddrCtrs;
    hide IncActive;
    hide HasCleanup;
    hide U32;
    var t := Track(s, i, pkt, flipped);
    forall x: nat | Queued(t, x) && x < |t.streams|
      ensures HasCleanup(t.streams[x].flowflags)
    {
      assert x != i ==> Queued(s, x);
    }
  }

  lemma CreatedFlagged(s: State, c: State, i: nat, key: StreamKey)
    requires Flagged(s) && QueueOk(s) && JustCreated(s, c, i, key)
    ensures Flagged(c)
  {
    hide AddrsOk;
    hide Ok;
    hide NoDup;
    hide HasCleanup;
    forall x: nat | Queued(c, x) && x < |c.streams|
      ensures HasCleanup(c.streams[x].flowflags)
    {
      assert Queued(s, x) && x in s.Live();
    }
  }

  lemma RecordFlagged(s: State, pkt: Packet, isLan: Addr -> bool)
    requires Inv(s) && Flagged(s) && Admissible(s, pkt) && |s.flows| == 6 && Record(s, pkt, isLan).Next?
    ensures Flagged(Record(s, pkt, isLan).state)
  {
    hide InitV4;
    hide CreateStream;
    hide Track;
    hide Linked;
    hide QueueOk;
    hide PoolsOk;
    hide Bump;
    hide FinFits;
    hide HasCleanup;
    hide Usable;
    hide JustCreated;
    var (key, flipped) := InitV4(pkt.ipproto, pkt.src, pkt.dst);
    var s1 := s.(flows := Bump(s.flows, FLOW_TYPE_TOTAL, pkt.len));
    FlowsAreApart(s, s1);
    if !(key.left == 0 || key.right == 0) {
      if key in s.streamMap {
        KnownIsLive(s1, key);
        TrackFlagged(s1, s1.streamMap[key], pkt, flipped);
      } else {
        var r := CreateStream(s1, pkt, key, isLan);
        if r.Made? {
          InvGivesAddrs(s1);
          assert Usable(s1, key.left) && Usable(s1, key.right) by {
            UsableAlike(s, s1, key.left);
            UsableAlike(s, s1, key.right);
          }
          CreateOk(s1, pkt, key, isLan);
          CreatedFlagged(s1, r.state, r.slot, key);
          CreateShape(s1, pkt, key, isLan);
          TrackFlagged(r.state, r.slot, pkt, flipped);
        }
      }
    }
  }

  lemma UsableAlike(s: State, t: State, x: Addr)
    requires t == s.(flows := t.flows)
    ensures Usable(t, x) <==> Usable(s, x)
  {
  }

  lemma SweepFlagged(s: State, sec: nat)
    requires Inv(s) && Flagged(s) && NoneWaits(s, sec)
    ensures Flagged(Sweep(s, sec))
  {
    hide Linked;
    hide PoolsOk;
    hide QueuedOnce;
    hide HasCleanup;
    hide CleanAll;
    hide U32;
    if PassRuns(s, sec) {
      EnqueueAllAppends(s, sec, ExpiredBelow(s, sec, s.streamPool.hi));
      var f := FindExpired(s, sec);
      FindExpiredFrame(s, sec);
      CleanAllFrame(f, f.main);
      hide Accepted;
      hide ExpiredBelow;
      assert f.wait == s.wait;
    }
  }

  /** On every run fed by FIN and RST alone the queued streams are flagged, and the run fits. */
  lemma {:induction false} QuietRunFits(pkts: seq<Packet>, isLan: Addr -> bool)
    requires RunIsQuiet(pkts, isLan)
    ensures RunFits(pkts, isLan)
    ensures RunPackets(pkts, isLan).Running? ==> Flagged(RunPackets(pkts, isLan).state)
    decreases |pkts|
  {
    if pkts != [] {
      hide Inv;
      hide OnPacket;
      hide StepIsQuiet;
      hide StepFits;
      hide Flagged;
      hide InitialState;
      var n := |pkts| - 1;
      var before := pkts[..n];
      QuietBefore(pkts, isLan);
      QuietRunFits(before, isLan);
      var o := RunPackets(before, isLan);
      if o.Running? {
        EveryRunKeepsInv(before, isLan);
        StepStaysQuiet(o.state, pkts[n], isLan);
      }
      FitsAppended(pkts, isLan);
    } else {
      assert Flagged(InitialState());
    }
  }

  lemma StepStaysQuiet(s: State, pkt: Packet, isLan: Addr -> bool)
    requires Inv(s) && Flagged(s) && StepIsQuiet(s, pkt, isLan)
    ensures |s.flows| == 6 && StepFits(s, pkt, isLan)
    ensures OnPacket(s, pkt, isLan).Next? ==> Flagged(OnPacket(s, pkt, isLan).state)
  {
    hide Flagged;
    hide Welcome;
    hide Admissible;
    hide SweepFits;
    hide NoneWaits;
    hide Record;
    hide Sweep;
    hide LeavesTable;
    hide Linked;
    hide QueueOk;
    hide PoolsOk;
    FlaggedIsAdmissible(s, pkt);
    var r := Record(s, pkt, isLan);
    if r.Next? {
      RecordKeepsInv(s, pkt, isLan);
      RecordFlagged(s, pkt, isLan);
      if r.verdict.Counted? {
        SweepFlagged(r.state, pkt.ts.sec);
      }
    }
  }

  lemma QuietBefore(pkts: seq<Packet>, isLan: Addr -> bool)
    requires RunIsQuiet(pkts, isLan) && pkts != []
    ensures RunIsQuiet(pkts[..|pkts| - 1], isLan)
    ensures RunPackets(pkts[..|pkts| - 1], isLan).Running? ==>
              StepIsQuiet(RunPackets(pkts[..|pkts| - 1], isLan).state, pkts[|pkts| - 1], isLan)
  {
    hide StepIsQuiet;
    hide RunPackets;
    var before := pkts[..|pkts| - 1];
    forall k | 0 <= k < |before| && RunPackets(before[..k], isLan).Running?
      ensures StepIsQuiet(RunPackets(before[..k], isLan).state, before[k], isLan)
    {
      assert before[..k] == pkts[..k];
    }
  }

  lemma FitsAppended(pkts: seq<Packet>, isLan: Addr -> bool)
    requires pkts != [] && RunFits(pkts[..|pkts| - 1], isLan)
    requires RunPackets(pkts[..|pkts| - 1], isLan).Running? ==>
               StepFits(RunPackets(pkts[..|pkts| - 1], isLan).state, pkts[|pkts| - 1], isLan)
    ensures RunFits(pkts, isLan)
  {
    hide StepFits;
    hide RunPackets;
    var before := pkts[..|pkts| - 1];
    forall k | 0 <= k < |pkts| && RunPackets(pkts[..k], isLan).Running?
      ensures StepFits(RunPackets(pkts[..k], isLan).state, pkts[k], isLan)
    {
      if k < |before| {
        assert before[..k] == pkts[..k];
      }
    }
  }
}
