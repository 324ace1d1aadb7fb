// What the record of a live stream says of the packets of its conversation.
module StreamHistory {
  import opened Words
  import opened SlotPool
  import opened StreamKeys
  import opened Structs
  import opened Lifecycle
  import opened Capture
  import opened Tenancy

  // ----- one packet -----

  /** Nothing but the cleanup flag and the queue depends on FIN and RST: the first one of a stream puts it
      on the main list in seconds 0..14 and 55..59 of the minute if that has fewer than 3276 entries, and
      on the wait list in seconds 15..54 if that has fewer than 1638. */
  ghost predicate QueuedBySecond(s: State, t: State, i: nat, pkt: Packet, flagged: bool) {
    var second := pkt.ts.sec % 60;
    var queues := pkt.istcp && pkt.isfin && !flagged;
    && t.main == (if queues && (second < 15 || second >= 55) && |s.main| < 3276 then s.main + [i] else s.main)
    && t.wait == (if queues && 15 <= second < 55 && |s.wait| < 1638 then s.wait + [i] else s.wait)
  }

  /** What counting a packet does to the record of its stream and to the queues. */
  lemma TrackStream(s: State, i: nat, pkt: Packet, flipped: bool)
    requires HasRefs(s, i) && |s.flows| == 6
    ensures var t := Track(s, i, pkt, flipped);
            && i < |t.streams|
            && t.streams[i].packets == (s.streams[i].packets + 1) % 0x1_0000_0000
            && t.streams[i].bytes == (s.streams[i].bytes + pkt.len) % 0x1_0000_0000
            && t.streams[i].tlast == pkt.ts && t.streams[i].tstart == s.streams[i].tstart
            && t.lastSec == s.lastSec
            && t.streams[i].flowflags == (if pkt.istcp && pkt.isfin && s.streams[i].flowflags / 128 % 2 == 0
                                          then s.streams[i].flowflags + 128 else s.streams[i].flowflags)
            && QueuedBySecond(s, t, i, pkt, s.streams[i].flowflags / 128 % 2 == 1)
  {
    hide U16;
    hide IncAddrCtrs;
    hide IncActive;
    hide Bump;
  }

  /** A created stream starts from nothing, at the packet's time, unflagged. */
  lemma CreateStarts(s: State, pkt: Packet, key: StreamKey, isLan: Addr -> bool)
    ensures var r := CreateStream(s, pkt, key, isLan);
            r.Made? ==>
              && HasRefs(r.state, r.slot) && r.state.streamMap == s.streamMap[key := r.slot]
              && r.state.main == s.main && r.state.wait == s.wait && r.state.lastSec == s.lastSec && r.state.flows == s.flows
              && |r.state.streams| == |s.streams|
              && (forall j :: 0 <= j < |s.streams| && j != r.slot ==> r.state.streams[j] == s.streams[j])
              && var ss := r.state.streams[r.slot];
                 ss.packets == 0 && ss.bytes == 0 && ss.tstart == pkt.ts && ss.flowflags < 128
  {
    hide Alloc;
    hide AddrFor;
    var r := CreateStream(s, pkt, key, isLan);
    if r.Made? {
      var s1 := s.(streamPool := Alloc(s.streamPool).pool, streamMap := s.streamMap[key := r.slot]);
      var s2 := AddrFor(s1, key.left, pkt.ts, isLan).state;
      AddrForMaps(s1, key.left, pkt.ts, isLan);
      AddrForQueues(s1, key.left, pkt.ts, isLan);
      AddrForMaps(s2, key.right, pkt.ts, isLan);
      AddrForQueues(s2, key.right, pkt.ts, isLan);
    }
  }

  lemma AddrForQueues(s: State, ip: Addr, ts: Tval, isLan: Addr -> bool)
    ensures var r := AddrFor(s, ip, ts, isLan);
            r.GotAddr? ==> r.state.main == s.main && r.state.wait == s.wait && r.state.lastSec == s.lastSec && r.state.flows == s.flows
  {
    hide Alloc;
  }

  /** The record of a stream before this packet: that of its live stream, or a blank one from now on. */
  function Before(s: State, key: StreamKey, ts: Tval): (r: (nat, nat, Tval))
  {
    if key in s.streamMap && s.streamMap[key] < |s.streams|
    then var ss := s.streams[s.streamMap[key]]; (ss.packets, ss.bytes, ss.tstart)
    else (0, 0, ts)
  }

  /** The state after a counted packet, as far as streams go. */
  ghost predicate StreamCounted(s: State, t: State, i: nat, pkt: Packet) {
    var key := InitV4(pkt.ipproto, pkt.src, pkt.dst).0;
    var (packets, bytes, tstart) := Before(s, key, pkt.ts);
    && i < |t.streams| == |s.streams| && t.streamMap == s.streamMap[key := i]
    && (key in s.streamMap ==> i == s.streamMap[key])
    && t.streams[i].packets == (packets + 1) % 0x1_0000_0000
    && t.streams[i].bytes == (bytes + pkt.len) % 0x1_0000_0000
    && t.streams[i].tstart == tstart && t.streams[i].tlast == pkt.ts
    && (forall j :: 0 <= j < |s.streams| && j != i ==> t.streams[j] == s.streams[j])
    && t.lastSec == s.lastSec
    && QueuedBySecond(s, t, i, pkt, key in s.streamMap && s.streams[i].flowflags / 128 % 2 == 1)
  }

  lemma QueuedFrom(s: State, u: State, t: State, i: nat, pkt: Packet, flagged: bool)
    requires u.main == s.main && u.wait == s.wait && QueuedBySecond(u, t, i, pkt, flagged)
    ensures QueuedBySecond(s, t, i, pkt, flagged)
  {
  }

  /** Every counted packet of any state adds itself to the record of its conversation's stream, moves that
      stream's last time, and leaves all other stream records alone. */
  lemma RecordCountsStream(s: State, pkt: Packet, isLan: Addr -> bool)
    requires |s.flows| == 6 && Record(s, pkt, isLan).Next?
    ensures var r := Record(s, pkt, isLan);
            && (r.verdict.Counted? ==> StreamCounted(s, r.state, r.verdict.slot, pkt))
            && (!r.verdict.Counted? ==> r.state == s.(flows := r.state.flows, refused := r.state.refused))
            && (r.verdict.Ignored? <==> InitV4(pkt.ipproto, pkt.src, pkt.dst).0.left == 0
                                        || InitV4(pkt.ipproto, pkt.src, pkt.dst).0.right == 0)
            && (r.verdict.Ignored? ==> r.state == s)
  {
    hide InitV4;
    hide CreateStream;
    hide Track;
    hide Bump;
    hide SameCounts;
    hide FirstCounted;
    hide U32;
    hide QueuedBySecond;
    var (key, flipped) := InitV4(pkt.ipproto, pkt.src, pkt.dst);
    var s1 := s.(flows := Bump(s.flows, FLOW_TYPE_TOTAL, pkt.len));
    if key in s.streamMap {
      var i := s.streamMap[key];
      if HasRefs(s1, i) {
        TrackStream(s1, i, pkt, flipped);
        TrackShape(s1, i, pkt, flipped);
        assert s.streamMap[key := i] == s.streamMap;
        QueuedFrom(s, s1, Track(s1, i, pkt, flipped), i, pkt, s.streams[i].flowflags / 128 % 2 == 1);
      }
    } else {
      var r := CreateStream(s1, pkt, key, isLan);
      CreateStarts(s1, pkt, key, isLan);
      if r.Made? {
        TrackStream(r.state, r.slot, pkt, flipped);
        TrackShape(r.state, r.slot, pkt, flipped);
        QueuedFrom(s, r.state, Track(r.state, r.slot, pkt, flipped), r.slot, pkt, false);
      }
    }
  }

  // ----- a pass -----

  /** A pass removes map entries and leaves the records of streams that stay live. */
  ghost predicate Kept(s: State, t: State) {
    && |t.streams| == |s.streams| && t.Live() <= s.Live()
    && (forall k :: k in t.streamMap ==> k in s.streamMap && t.streamMap[k] == s.streamMap[k])
    && (forall j: nat :: j < |s.streams| && j in t.Live() ==> t.streams[j] == s.streams[j])
  }

  lemma CleanOneKeeps(s: State, i: nat)
    requires HasRefs(s, i)
    ensures Kept(s, CleanOne(s, i))
  {
    hide Free;
    hide KeyOf;
    FreeDropsAtMost(s.streamPool, i);
    FreeTakesIt(s.streamPool, i);
    ReleaseAddrsFrame(s.(streamMap := s.streamMap - {KeyOf(s, i)}), s.streams[i].idxLeft, s.streams[i].idxRight);
    hide ReleaseAddrs;
    var t := CleanOne(s, i);
    assert forall b :: b in t.Live() ==> b in s.Live();
  }

  lemma FreeTakesIt(p: Pool, i: nat)
    ensures Releases(p, i) ==> i !in Free(p, i).taken
  {
    hide ShrinkLo;
    hide ShrinkHi;
  }

  lemma {:induction false} CleanAllKeeps(s: State, slots: seq<nat>)
    ensures Kept(s, CleanAll(s, slots))
    decreases |slots|
  {
    hide CleanOne;
    if slots != [] {
      var t := CleanAll(s, slots[..|slots| - 1]);
      CleanAllKeeps(s, slots[..|slots| - 1]);
      if HasRefs(t, slots[|slots| - 1]) {
        CleanOneKeeps(t, slots[|slots| - 1]);
      }
    }
  }

  lemma SweepKeeps(s: State, sec: nat)
    ensures Kept(s, Sweep(s, sec))
  {
    hide CleanAll;
    hide FindExpired;
    hide U32;
    FindExpiredFrame(s, sec);
    var f := FindExpired(s, sec);
    CleanAllKeeps(f, f.main);
  }

  /** When a pass does anything, and what the clock of the passes is then: the second is another one than
      that of the last counted packet, at least 15 into its minute, and the main list is not empty. */
  lemma SweepWhen(s: State, sec: nat)
    requires s.lastSec < 0x1_0000_0000 && sec < 0x1_0000_0000
    ensures Sweep(s, sec).lastSec == sec
    ensures !(sec != s.lastSec && sec % 60 >= 15 && s.main != []) ==> Sweep(s, sec) == s.(lastSec := sec)
    ensures PassRuns(s, sec) <==> sec != s.lastSec && sec % 60 >= 15 && s.main != []
  {
    hide CleanAll;
    hide FindExpired;
    var f := FindExpired(s, sec);
    FindExpiredFrame(s, sec);
    CleanAllFrame(f, f.main);
    assert U32(sec - s.lastSec) > 0 <==> sec != s.lastSec;
  }

  /** The search of a pass finds each live stream that was silent for more than 30 seconds, once, in slot
      order. */
  lemma ExpiredAreExactly(s: State, sec: nat)
    requires Inv(s)
    ensures var q := ExpiredBelow(s, sec, s.streamPool.hi);
            && (forall k, l :: 0 <= k < l < |q| ==> q[k] < q[l])
            && (forall j: nat :: j < |s.streams| ==>
                  (j in q <==> j in s.Live() && (sec - s.streams[j].tlast.sec) % 0x1_0000_0000 > 30))
  {
    hide Linked;
    hide QueueOk;
    hide ProductionPools;
    OkIsFramed(s.streamPool);
    hide Ok;
    forall j: nat | j < |s.streams|
      ensures j in ExpiredBelow(s, sec, s.streamPool.hi)
              <==> j in s.Live() && (sec - s.streams[j].tlast.sec) % 0x1_0000_0000 > 30
    {
      ExpiredBelowIs(s, sec, s.streamPool.hi, j);
    }
  }

  lemma {:induction false} ExpiredBelowIs(s: State, sec: nat, n: nat, j: nat)
    ensures j in ExpiredBelow(s, sec, n) <==>
              s.streamPool.lo < j < n && j in s.Live() && j < |s.streams| && (sec - s.streams[j].tlast.sec) % 0x1_0000_0000 > 30
    decreases n
  {
    if n > s.streamPool.lo + 1 {
      ExpiredBelowIs(s, sec, n - 1, j);
    }
  }

  // ----- every run -----

  /** Number, length, first and last time of the packets of a conversation since its stream was created. */
  datatype Tally = Tally(packets: nat, bytes: nat, first: Tval, last: Tval)

  /** The packets of key so far, from the last one on that found no stream of the key. */
  function TallyOf(pkts: seq<Packet>, isLan: Addr -> bool, key: StreamKey): Tally {
    if pkts == [] then Tally(0, 0, Tval(0, 0), Tval(0, 0))
    else
      var n := |pkts| - 1;
      var before, o := TallyOf(pkts[..n], isLan, key), RunPackets(pkts[..n], isLan);
      if o.Stopped? then before else NextTally(before, pkts[n], key, key in o.state.streamMap)
  }

  /** What one more packet makes of the tally of key; known tells whether there is a stream of the key. */
  function NextTally(x: Tally, pkt: Packet, key: StreamKey, known: bool): Tally {
    if InitV4(pkt.ipproto, pkt.src, pkt.dst).0 != key || key.left == 0 || key.right == 0 then x
    else if known then Tally(x.packets + 1, x.bytes + pkt.len, x.first, pkt.ts)
    else Tally(1, pkt.len, pkt.ts, pkt.ts)
  }

  ghost predicate Tallied(s: State, key: StreamKey, x: Tally) {
    key in s.streamMap ==>
      && s.streamMap[key] < |s.streams|
      && var ss := s.streams[s.streamMap[key]];
         && ss.packets == x.packets % 0x1_0000_0000 && ss.bytes == x.bytes % 0x1_0000_0000
         && ss.tstart == x.first && ss.tlast == x.last
  }

  lemma AddToRemainder(x: nat, y: nat, z: nat)
    requires x == y % 0x1_0000_0000
    ensures (x + z) % 0x1_0000_0000 == (y + z) % 0x1_0000_0000
  {
    assert y == (y / 0x1_0000_0000) * 0x1_0000_0000 + x;
    assert y + z == (y / 0x1_0000_0000) * 0x1_0000_0000 + (x + z);
  }

  lemma CountedTally(s: State, t: State, i: nat, pkt: Packet, key: StreamKey, x: Tally)
    requires StreamCounted(s, t, i, pkt) && Tallied(s, key, x)
    requires forall k :: k in s.streamMap && k != InitV4(pkt.ipproto, pkt.src, pkt.dst).0 ==> s.streamMap[k] != i
    requires var k := InitV4(pkt.ipproto, pkt.src, pkt.dst).0; k.left != 0 && k.right != 0
    ensures Tallied(t, key, NextTally(x, pkt, key, key in s.streamMap))
  {
    hide InitV4;
    hide QueuedBySecond;
    if key in s.streamMap && s.streamMap[key] < |s.streams| {
      var ss := s.streams[s.streamMap[key]];
      AddToRemainder(ss.packets, x.packets, 1);
      AddToRemainder(ss.bytes, x.bytes, pkt.len);
    }
  }

  /** The slots of the map are live and each has one key. */
  lemma MapIsOneToOne(s: State)
    requires Inv(s)
    ensures forall k :: k in s.streamMap ==> s.streamMap[k] in s.Live() && s.streamMap[k] < |s.streams|
    ensures forall k, l :: k in s.streamMap && l in s.streamMap && s.streamMap[k] == s.streamMap[l] ==> k == l
  {
    hide KeyOf;
    hide AddrEntries;
    hide Ok;
  }

  lemma KeptTally(s: State, t: State, key: StreamKey, x: Tally)
    requires Tallied(s, key, x) && Kept(s, t) && Inv(t)
    ensures Tallied(t, key, x)
  {
    MapIsOneToOne(t);
    hide Inv;
  }

  lemma NewSlotIsUnused(s: State, t: State, i: nat, pkt: Packet)
    requires Inv(s) && Inv(t) && StreamCounted(s, t, i, pkt)
    ensures forall k :: k in s.streamMap && k != InitV4(pkt.ipproto, pkt.src, pkt.dst).0 ==> s.streamMap[k] != i
  {
    hide InitV4;
    hide QueuedBySecond;
    hide Before;
    MapIsOneToOne(t);
    hide Inv;
    var key := InitV4(pkt.ipproto, pkt.src, pkt.dst).0;
    forall k | k in s.streamMap && k != key
      ensures s.streamMap[k] != i
    {
      assert t.streamMap[k] == s.streamMap[k] && t.streamMap[key] == i;
    }
  }

  /** On every run that fits, the record of a live stream holds, modulo 2^32, the number and the total
      length of the packets of its key since it was created, and the times of the first and the last. */
  lemma {:induction false} EveryStreamIsTallied(pkts: seq<Packet>, isLan: Addr -> bool, key: StreamKey)
    requires RunFits(pkts, isLan) && RunPackets(pkts, isLan).Running?
    ensures Tallied(RunPackets(pkts, isLan).state, key, TallyOf(pkts, isLan, key))
    decreases |pkts|
  {
    hide Inv;
    hide OnPacket;
    hide StepFits;
    hide InitialState;
    hide InitV4;
    hide Tallied;
    if pkts == [] {
      StartIsTallied(key);
    } else {
      var n := |pkts| - 1;
      RunFitsBefore(pkts, isLan);
      EveryStreamIsTallied(pkts[..n], isLan, key);
      EveryRunKeepsInv(pkts[..n], isLan);
      var s := RunPackets(pkts[..n], isLan).state;
      StepKeepsTally(s, pkts[n], isLan, key, TallyOf(pkts[..n], isLan, key));
    }
  }

  lemma StartIsTallied(key: StreamKey)
    ensures Tallied(InitialState(), key, Tally(0, 0, Tval(0, 0), Tval(0, 0)))
  {
  }

  lemma StepKeepsTally(s: State, pkt: Packet, isLan: Addr -> bool, key: StreamKey, x: Tally)
    requires Inv(s) && StepFits(s, pkt, isLan) && |s.flows| == 6 && OnPacket(s, pkt, isLan).Next? && Tallied(s, key, x)
    ensures Tallied(OnPacket(s, pkt, isLan).state, key, NextTally(x, pkt, key, key in s.streamMap))
  {
    hide Inv;
    hide Record;
    hide Sweep;
    hide LeavesTable;
    hide InitV4;
    hide Tallied;
    hide StreamCounted;
    hide Admissible;
    hide SweepFits;
    hide NoRoomFor;
    hide Kept;
    FaultIffNoRoom(s, pkt, isLan);
    RecordKeepsInv(s, pkt, isLan);
    StepKeepsInv(s, pkt, isLan);
    RecordCountsStream(s, pkt, isLan);
    var r := Record(s, pkt, isLan);
    if r.verdict.Counted? {
      NewSlotIsUnused(s, r.state, r.verdict.slot, pkt);
      CountedTally(s, r.state, r.verdict.slot, pkt, key, x);
      SweepKeeps(r.state, pkt.ts.sec);
      KeptTally(r.state, Sweep(r.state, pkt.ts.sec), key, NextTally(x, pkt, key, key in s.streamMap));
    }
  }
}
