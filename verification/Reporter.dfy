// The statistics process at a minute boundary: check_minute with _process_streams and
// _process_addrs2 of statproc/statproc_handlers.c, in place on its working copies.
module Reporter {
  import opened Structs
  import opened Ports
  import opened Ranking
  import opened TopLists
  import opened ReportBuilder
  import opened MinuteReport

  const NUM_TOPN_STREAMS: nat := 20
  const NUM_TOPN_ADDRS: nat := 10

  function PacketKeys(streams: seq<StreamInfo>): seq<int> {
    seq(|streams|, i requires 0 <= i < |streams| => streams[i].packets)
  }

  function ByteKeys(streams: seq<StreamInfo>): seq<int> {
    seq(|streams|, i requires 0 <= i < |streams| => streams[i].bytes)
  }

  function TxKeys(addrs: seq<AddrInfo>): seq<int> {
    seq(|addrs|, i requires 0 <= i < |addrs| => addrs[i].txpackets)
  }

  function ScanKeys(addrs: seq<AddrInfo>): seq<int> {
    seq(|addrs|, i requires 0 <= i < |addrs| => ToNat(addrs[i].resvd))
  }

  function ServeKeys(addrs: seq<AddrInfo>): seq<int> {
    seq(|addrs|, i requires 0 <= i < |addrs| => ToNat(addrs[i].resvd2))
  }

  /** A pool's published window: the slots strictly between lo and hi. */
  datatype Window = Window(lo: nat, hi: nat)

  /** The call for one slot of a top list. */
  function StreamCall(streams: seq<StreamInfo>, addrs: seq<AddrInfo>, slot: nat, sort: SortBy, rank: nat): Call
    requires slot < |streams| && streams[slot].idxLeft < |addrs| && streams[slot].idxRight < |addrs|
  {
    var ss := streams[slot];
    OnTopStream(StreamStat(sort, rank, ss.packets, ss.bytes), ss.iid, addrs[ss.idxLeft].iid, addrs[ss.idxRight].iid)
  }

  /** The calls made for the slots of a top list. */
  function StreamCallsFor(streams: seq<StreamInfo>, addrs: seq<AddrInfo>, slots: seq<nat>, sort: SortBy): (calls: seq<Call>)
    requires forall k :: 0 <= k < |slots| ==>
               slots[k] < |streams| && streams[slots[k]].idxLeft < |addrs| && streams[slots[k]].idxRight < |addrs|
    ensures |calls| == |slots|
  {
    seq(|slots|, k requires 0 <= k < |slots| => StreamCall(streams, addrs, slots[k], sort, k))
  }

  // The flow flags that the two address pools are reported under.
  function PoolFlow(lan: bool): nat {
    if lan then 4 else 0
  }

  function AddrCall(a: AddrInfo, sort: SortBy, lan: bool, rank: nat): Call {
    OnTopAddress(AddrStat(sort, PoolFlow(lan), rank, a.txpackets, a.txbytes, a.rxpackets, a.rxbytes), a.iid)
  }

  function AddrCallsFor(addrs: seq<AddrInfo>, slots: seq<nat>, sort: SortBy, lan: bool): (calls: seq<Call>)
    requires forall k :: 0 <= k < |slots| ==> slots[k] < |addrs|
    ensures |calls| == |slots|
  {
    seq(|slots|, k requires 0 <= k < |slots| => AddrCall(addrs[slots[k]], sort, lan, k))
  }

  lemma {:induction false} SlotsCongruent(f: seq<bool>, g: seq<bool>, from: nat, i: nat)
    requires i <= |f| && i <= |g| && forall j :: from <= j < i ==> f[j] == g[j]
    ensures Slots(f, from, i) == Slots(g, from, i)
    decreases i
  {
    if i > from {
      SlotsCongruent(f, g, from, i - 1);
    }
  }

  /** A ranking of slots below n mentions slots below n only. */
  lemma RankedBelow(order: seq<nat>, candidates: seq<nat>, keys: seq<int>, n: nat)
    requires Ranked(order, candidates, keys)
    requires forall k :: 0 <= k < |candidates| ==> candidates[k] < n
    ensures forall k :: 0 <= k < |order| ==> order[k] < n
  {
    forall k | 0 <= k < |order|
      ensures order[k] < n
    {
      assert order[k] in multiset(order);
      assert order[k] in candidates;
    }
  }

  /** Only the LAN pass looks for suspicious addresses. */
  lemma {:induction false} NothingSuspicious(addrs: seq<AddrInfo>, from: nat, i: nat)
    requires i <= |addrs|
    ensures Slots(Scanning(addrs, false), from, i) == [] && Slots(Serving(addrs, false), from, i) == []
    decreases i
  {
    if i > from {
      NothingSuspicious(addrs, from, i - 1);
    }
  }

  /** The rankings of one pool mention existing slots, and outside the LAN nothing is suspicious. */
  lemma AddrRankings(addrs: seq<AddrInfo>, lan: bool, w: Window, byTx: seq<nat>, scanners: seq<nat>, targets: seq<nat>,
                     k0: seq<int>, k1: seq<int>, k2: seq<int>)
    requires w.lo < w.hi <= |addrs|
    requires Ranked(byTx, Slots(TakenAddrs(addrs), w.lo + 1, w.hi), k0)
    requires Ranked(scanners, Slots(Scanning(addrs, lan), w.lo + 1, w.hi), k1)
    requires Ranked(targets, Slots(Serving(addrs, lan), w.lo + 1, w.hi), k2)
    ensures forall k :: 0 <= k < |byTx| ==> byTx[k] < |addrs|
    ensures forall k :: 0 <= k < |scanners| ==> scanners[k] < |addrs|
    ensures forall k :: 0 <= k < |targets| ==> targets[k] < |addrs|
    ensures !lan ==> scanners == [] == targets
  {
    hide Scans;
    hide Serves;
    hide Ranked;
    hide Slots;
    SlotsMeaning(TakenAddrs(addrs), w.lo + 1, w.hi);
    SlotsMeaning(Scanning(addrs, lan), w.lo + 1, w.hi);
    SlotsMeaning(Serving(addrs, lan), w.lo + 1, w.hi);
    RankedBelow(byTx, Slots(TakenAddrs(addrs), w.lo + 1, w.hi), k0, |addrs|);
    RankedBelow(scanners, Slots(Scanning(addrs, lan), w.lo + 1, w.hi), k1, |addrs|);
    RankedBelow(targets, Slots(Serving(addrs, lan), w.lo + 1, w.hi), k2, |addrs|);
    if !lan {
      NothingSuspicious(addrs, w.lo + 1, w.hi);
      RankedLength(scanners, [], k1);
      RankedLength(targets, [], k2);
    }
  }

  lemma PeriodExtends(calls: seq<Call>, c: Call)
    ensures Period(calls + [c]) == Respond(Period(calls), c)
  {
    assert (calls + [c])[..|calls|] == calls;
  }

  // ----- the whole minute on values -----

  /** Part of the shared table replaces that part of the working copy: the slots lo .. hi - 1. */
  function Copied<T>(copy: seq<T>, shared: seq<T>, w: Window): (r: seq<T>)
    requires w.lo < w.hi <= |copy| <= |shared|
    ensures |r| == |copy| && forall i :: 0 <= i < |r| ==> r[i] == if w.lo <= i < w.hi then shared[i] else copy[i]
  {
    copy[..w.lo] + shared[w.lo..w.hi] + copy[w.hi..]
  }

  datatype Windows = Windows(streams: Window, lan: Window, wan: Window)

  ghost predicate WindowsFit(w: Windows, streams: nat, addrs: nat) {
    w.streams.lo < w.streams.hi <= streams && w.lan.lo < w.lan.hi <= addrs && w.wan.lo < w.wan.hi <= addrs
  }

  /** The tables after the stream pass, then after the LAN pass, then after the WAN pass. */
  datatype Minute = Minute(marked: Tables, lan: AddrTables, wan: AddrTables)

  ghost function MinuteOf(start: Tables, lastAddrs: seq<AddrInfo>, w: Windows): (m: Minute)
    requires InBounds(start) && WindowsFit(w, |start.streams|, |start.addrs|) && |lastAddrs| == |start.addrs|
    ensures InBounds(m.marked) && |m.marked.streams| == |start.streams|
    ensures |m.marked.addrs| == |m.lan.addrs| == |m.wan.addrs| == |start.addrs|
  {
    var marked := StreamsPass(start, w.streams.lo + 1, w.streams.hi);
    var lan := AddrsPass(AddrTables(marked.addrs, lastAddrs, [], [], []), w.lan.lo + 1, w.lan.hi, true);
    Minute(marked, lan, AddrsPass(AddrTables(lan.addrs, lan.last, [], [], []), w.wan.lo + 1, w.wan.hi, false))
  }

  datatype AddrOrders = AddrOrders(byTx: seq<nat>, scanners: seq<nat>, targets: seq<nat>)

  datatype Orders = Orders(byPackets: seq<nat>, byBytes: seq<nat>, lan: AddrOrders, wan: AddrOrders)

  /** The three rankings of one address pool. */
  ghost predicate AddrRanks(before: seq<AddrInfo>, after: seq<AddrInfo>, o: AddrOrders, w: Window, lan: bool)
    requires w.hi <= |before|
  {
    && Ranked(o.byTx, Slots(TakenAddrs(before), w.lo + 1, w.hi), TxKeys(after))
    && Ranked(o.scanners, Slots(Scanning(before, lan), w.lo + 1, w.hi), ScanKeys(after))
    && Ranked(o.targets, Slots(Serving(before, lan), w.lo + 1, w.hi), ServeKeys(after))
  }

  ghost predicate StreamRanks(start: seq<StreamInfo>, after: seq<StreamInfo>, byPackets: seq<nat>, byBytes: seq<nat>, w: Window)
    requires w.hi <= |start|
  {
    && Ranked(byPackets, Slots(TakenStreams(start), w.lo + 1, w.hi), PacketKeys(after))
    && Ranked(byBytes, Slots(TakenStreams(start), w.lo + 1, w.hi), ByteKeys(after))
  }

  ghost predicate MinuteRanks(start: Tables, m: Minute, o: Orders, w: Windows)
    requires WindowsFit(w, |start.streams|, |start.addrs|) && |m.marked.addrs| == |m.lan.addrs| == |start.addrs|
  {
    && StreamRanks(start.streams, m.marked.streams, o.byPackets, o.byBytes, w.streams)
    && AddrRanks(m.marked.addrs, m.lan.addrs, o.lan, w.lan, true)
    && AddrRanks(m.lan.addrs, m.wan.addrs, o.wan, w.wan, false)
  }

  ghost predicate AddrSlotsExist(n: nat, o: AddrOrders) {
    && (forall k :: 0 <= k < |o.byTx| ==> o.byTx[k] < n)
    && (forall k :: 0 <= k < |o.scanners| ==> o.scanners[k] < n)
    && (forall k :: 0 <= k < |o.targets| ==> o.targets[k] < n)
  }

  ghost predicate StreamSlotsExist(streams: seq<StreamInfo>, addrs: nat, order: seq<nat>) {
    forall k :: 0 <= k < |order| ==>
      order[k] < |streams| && streams[order[k]].idxLeft < addrs && streams[order[k]].idxRight < addrs
  }

  /** The rows of one address pool, in the order they are emitted. */
  ghost function AddrCalls(addrs: seq<AddrInfo>, o: AddrOrders, lan: bool): seq<Call>
    requires AddrSlotsExist(|addrs|, o)
  {
    AddrCallsFor(addrs, Top(o.byTx, NUM_TOPN_ADDRS), ByTxPackets, lan)
    + AddrCallsFor(addrs, Top(o.scanners, NUM_TOPN_ADDRS), ByScannedPorts, lan)
    + AddrCallsFor(addrs, Top(o.targets, NUM_TOPN_ADDRS), ByServedPorts, lan)
  }

  ghost function BothStreamCalls(streams: seq<StreamInfo>, addrs: seq<AddrInfo>, byPackets: seq<nat>, byBytes: seq<nat>): seq<Call>
    requires StreamSlotsExist(streams, |addrs|, byPackets) && StreamSlotsExist(streams, |addrs|, byBytes)
  {
    StreamCallsFor(streams, addrs, Top(byPackets, NUM_TOPN_STREAMS), ByPackets)
    + StreamCallsFor(streams, addrs, Top(byBytes, NUM_TOPN_STREAMS), ByBytes)
  }

  ghost predicate OrdersFit(m: Minute, o: Orders) {
    && StreamSlotsExist(m.marked.streams, |m.marked.addrs|, o.byPackets)
    && StreamSlotsExist(m.marked.streams, |m.marked.addrs|, o.byBytes)
    && AddrSlotsExist(|m.lan.addrs|, o.lan) && AddrSlotsExist(|m.wan.addrs|, o.wan)
  }

  /** The rows of a whole minute report. */
  ghost function MinuteCalls(m: Minute, o: Orders): seq<Call>
    requires OrdersFit(m, o)
  {
    BothStreamCalls(m.marked.streams, m.marked.addrs, o.byPackets, o.byBytes)
    + AddrCalls(m.lan.addrs, o.lan, true) + AddrCalls(m.wan.addrs, o.wan, false)
  }

  ghost predicate RefsWithin(streams: seq<StreamInfo>, addrs: nat) {
    forall i :: 0 <= i < |streams| && !EmptySlot(streams[i].tstart) ==> streams[i].idxLeft < addrs && streams[i].idxRight < addrs
  }

  class Process {
    const streams: array<StreamInfo>
    const lastStreams: array<StreamInfo>
    const addrs: array<AddrInfo>
    const lastAddrs: array<AddrInfo>
    const streamPtrs: array<nat>
    const addrPtrs: array<nat>
    const scannerPtrs: array<nat>
    const targetPtrs: array<nat>

    /** The statics before the first report: zeroed tables of the shared sizes. */
    constructor (numStreams: nat, numAddrs: nat)
      ensures Separate() && streams.Length == numStreams && addrs.Length == numAddrs
      ensures scannerPtrs.Length == numAddrs / 2 == targetPtrs.Length
      ensures streams[..] == lastStreams[..] == seq(numStreams, i => NO_STREAM)
      ensures addrs[..] == lastAddrs[..] == seq(numAddrs, i => NO_ADDR)
      ensures fresh(streams) && fresh(lastStreams) && fresh(addrs) && fresh(lastAddrs)
      ensures fresh(streamPtrs) && fresh(addrPtrs) && fresh(scannerPtrs) && fresh(targetPtrs)
    {
      streams := new StreamInfo[numStreams](_ => NO_STREAM);
      lastStreams := new StreamInfo[numStreams](_ => NO_STREAM);
      addrs := new AddrInfo[numAddrs](_ => NO_ADDR);
      lastAddrs := new AddrInfo[numAddrs](_ => NO_ADDR);
      streamPtrs := new nat[numStreams];
      addrPtrs := new nat[numAddrs];
      scannerPtrs := new nat[numAddrs / 2];
      targetPtrs := new nat[numAddrs / 2];
    }

    ghost predicate Separate()
      reads this
    {
      && streams != lastStreams && addrs != lastAddrs
      && addrPtrs != scannerPtrs && addrPtrs != targetPtrs && scannerPtrs != targetPtrs
      && streams.Length == lastStreams.Length <= streamPtrs.Length
      && addrs.Length == lastAddrs.Length <= addrPtrs.Length
    }

    ghost function StreamTables(num: nat): Tables
      requires num <= streamPtrs.Length
      reads this, streams, lastStreams, addrs, streamPtrs
    {
      Tables(streams[..], lastStreams[..], addrs[..], streamPtrs[..num])
    }

    ghost function AddressTables(num: nat, scanners: nat, targets: nat): AddrTables
      requires num <= addrPtrs.Length && scanners <= scannerPtrs.Length && targets <= targetPtrs.Length
      reads this, addrs, lastAddrs, addrPtrs, scannerPtrs, targetPtrs
    {
      AddrTables(addrs[..], lastAddrs[..], addrPtrs[..num], scannerPtrs[..scanners], targetPtrs[..targets])
    }

    /** The body of the stream loop. */
    method StreamSlotAt(i: nat, num: nat) returns (num': nat)
      requires Separate() && i < streams.Length && num < streamPtrs.Length
      requires InBounds(StreamTables(num))
      modifies streams, lastStreams, addrs, streamPtrs
      ensures num <= num' <= num + 1
      ensures StreamTables(num') == StreamSlot(old(StreamTables(num)), i)
    {
      hide StreamShown;
      hide StreamLast;
      hide SetPortBit;
      num' := num;
      var s := streams[i];
      if EmptySlot(s.tstart) {
        return;
      }
      var last := lastStreams[i];
      streams[i] := StreamShown(last, s);
      lastStreams[i] := StreamLast(last, s);
      var left := addrs[s.idxLeft];
      if left.internal {
        addrs[s.idxLeft] := left.(resvd := SetPortBit(left.resvd, s.rport));
      }
      assert addrs[..] == MarkLeft(old(addrs[..]), s);
      var right := addrs[s.idxRight];
      if right.internal {
        addrs[s.idxRight] := right.(resvd2 := SetPortBit(right.resvd2, s.rport));
      }
      assert addrs[..] == Marked(old(addrs[..]), s);
      streamPtrs[num] := i;
      num' := num + 1;
      assert streamPtrs[..num'] == old(streamPtrs[..num]) + [i];
    }

    /** _process_streams: the deltas, the marks and the two rankings. */
    method ProcessStreams(lo: nat, hi: nat) returns (byPackets: seq<nat>, byBytes: seq<nat>)
      requires Separate() && lo < hi <= streams.Length && InBounds(StreamTables(0))
      modifies streams, lastStreams, addrs, streamPtrs
      ensures var t := StreamsPass(old(StreamTables(0)), lo + 1, hi);
              streams[..] == t.streams && lastStreams[..] == t.last && addrs[..] == t.addrs
      ensures StreamRanks(old(streams[..]), streams[..], byPackets, byBytes, Window(lo, hi))
    {
      hide StreamsPass;
      hide Slots;
      hide Ranked;
      hide PacketKeys;
      hide ByteKeys;
      hide InBounds;
      var num := GatherStreams(lo, hi);
      ghost var candidates := streamPtrs[..num];
      Rank(streamPtrs, num, PacketKeys(streams[..]));
      byPackets := streamPtrs[..num];
      Rank(streamPtrs, num, ByteKeys(streams[..]));
      byBytes := streamPtrs[..num];
      RerankSame(byBytes, byPackets, candidates, PacketKeys(streams[..]), ByteKeys(streams[..]));
    }

    /** The loop that takes the deltas and collects the pointers. */
    method GatherStreams(lo: nat, hi: nat) returns (num: nat)
      requires Separate() && lo < hi <= streams.Length && InBounds(StreamTables(0))
      modifies streams, lastStreams, addrs, streamPtrs
      ensures num <= streamPtrs.Length
      ensures var t := StreamsPass(old(StreamTables(0)), lo + 1, hi);
              streams[..] == t.streams && lastStreams[..] == t.last && addrs[..] == t.addrs
      ensures streamPtrs[..num] == Slots(TakenStreams(old(streams[..])), lo + 1, hi)
    {
      hide StreamSlot;
      hide InBounds;
      hide Slots;
      ghost var t0 := StreamTables(0);
      num := 0;
      var i := lo + 1;
      while i < hi
        invariant lo < i <= hi && num <= i
        invariant StreamTables(num) == StreamsPass(t0, lo + 1, i)
      {
        num := StreamSlotAt(i, num);
        i := i + 1;
      }
      StreamsPassPtrs(t0, lo + 1, hi);
    }

    /** The body of the address loop. */
    method AddrSlotAt(i: nat, lan: bool, num: nat, scanners: nat, targets: nat)
      returns (num': nat, scanners': nat, targets': nat)
      requires Separate() && i < addrs.Length
      requires num < addrPtrs.Length && scanners <= scannerPtrs.Length && targets <= targetPtrs.Length
      requires lan ==> scanners < scannerPtrs.Length && targets < targetPtrs.Length
      modifies addrs, lastAddrs, addrPtrs, scannerPtrs, targetPtrs
      ensures num <= num' <= num + 1
      ensures scanners <= scanners' <= scanners + (if lan then 1 else 0) && targets <= targets' <= targets + (if lan then 1 else 0)
      ensures scanners' <= scannerPtrs.Length && targets' <= targetPtrs.Length
      ensures AddressTables(num', scanners', targets') == AddrSlot(old(AddressTables(num, scanners, targets)), i, lan)
    {
      hide AddrShown;
      hide AddrLast;
      hide PortsFrom;
      hide FromNat;
      num', scanners', targets' := num, scanners, targets;
      var a := addrs[i];
      if EmptySlot(a.tstart) {
        return;
      }
      if lan {
        var n := CountBits16(a.resvd);
        var n2 := CountBits16(a.resvd2);
        addrs[i] := a.(resvd := FromNat(n, 16), resvd2 := FromNat(n2, 16));
        if n > SUSPICIOUS_PORTS_MIN {
          scannerPtrs[scanners] := i;
          scanners' := scanners + 1;
        }
        if n2 > SUSPICIOUS_PORTS_MIN {
          targetPtrs[targets] := i;
          targets' := targets + 1;
        }
      }
      var b := addrs[i];
      assert b == Tallied(a, lan);
      var last := lastAddrs[i];
      addrs[i] := AddrShown(last, b);
      lastAddrs[i] := AddrLast(last, b);
      addrPtrs[num] := i;
      num' := num + 1;
      assert addrPtrs[..num'] == old(addrPtrs[..num]) + [i];
      assert scannerPtrs[..scanners'] == old(scannerPtrs[..scanners]) + if Scans(a, lan) then [i] else [];
      assert targetPtrs[..targets'] == old(targetPtrs[..targets]) + if Serves(a, lan) then [i] else [];
    }

    /** _process_addrs2 for one of the two pools. */
    method ProcessAddrs(lo: nat, hi: nat, lan: bool) returns (byTx: seq<nat>, scanners: seq<nat>, targets: seq<nat>)
      requires Separate() && lo < hi <= addrs.Length
      requires lan ==> hi - lo <= scannerPtrs.Length && hi - lo <= targetPtrs.Length
      modifies addrs, lastAddrs, addrPtrs, scannerPtrs, targetPtrs
      ensures var t := AddrsPass(AddrTables(old(addrs[..]), old(lastAddrs[..]), [], [], []), lo + 1, hi, lan);
              addrs[..] == t.addrs && lastAddrs[..] == t.last
      ensures Ranked(byTx, Slots(TakenAddrs(old(addrs[..])), lo + 1, hi), TxKeys(addrs[..]))
      ensures Ranked(scanners, Slots(Scanning(old(addrs[..]), lan), lo + 1, hi), ScanKeys(addrs[..]))
      ensures Ranked(targets, Slots(Serving(old(addrs[..]), lan), lo + 1, hi), ServeKeys(addrs[..]))
    {
      hide AddrsPass;
      hide Slots;
      hide Ranked;
      hide TxKeys;
      hide ScanKeys;
      hide ServeKeys;
      var num, numScanners, numTargets := GatherAddrs(lo, hi, lan);
      Rank(addrPtrs, num, TxKeys(addrs[..]));
      byTx := addrPtrs[..num];
      Rank(scannerPtrs, numScanners, ScanKeys(addrs[..]));
      scanners := scannerPtrs[..numScanners];
      Rank(targetPtrs, numTargets, ServeKeys(addrs[..]));
      targets := targetPtrs[..numTargets];
    }

    method GatherAddrs(lo: nat, hi: nat, lan: bool) returns (num: nat, scanners: nat, targets: nat)
      requires Separate() && lo < hi <= addrs.Length
      requires lan ==> hi - lo <= scannerPtrs.Length && hi - lo <= targetPtrs.Length
      modifies addrs, lastAddrs, addrPtrs, scannerPtrs, targetPtrs
      ensures num <= addrPtrs.Length && scanners <= scannerPtrs.Length && targets <= targetPtrs.Length
      ensures var t := AddrsPass(AddrTables(old(addrs[..]), old(lastAddrs[..]), [], [], []), lo + 1, hi, lan);
              addrs[..] == t.addrs && lastAddrs[..] == t.last
      ensures addrPtrs[..num] == Slots(TakenAddrs(old(addrs[..])), lo + 1, hi)
      ensures scannerPtrs[..scanners] == Slots(Scanning(old(addrs[..]), lan), lo + 1, hi)
      ensures targetPtrs[..targets] == Slots(Serving(old(addrs[..]), lan), lo + 1, hi)
    {
      hide AddrSlot;
      hide Slots;
      ghost var t0 := AddrTables(addrs[..], lastAddrs[..], [], [], []);
      num, scanners, targets := 0, 0, 0;
      var i := lo + 1;
      while i < hi
        invariant lo < i <= hi && num <= i
        invariant scanners <= (if lan then i - lo - 1 else 0) && targets <= if lan then i - lo - 1 else 0
        invariant AddressTables(num, scanners, targets) == AddrsPass(t0, lo + 1, i, lan)
      {
        num, scanners, targets := AddrSlotAt(i, lan, num, scanners, targets);
        i := i + 1;
      }
      AddrsPassLists(t0, lo + 1, hi, lan);
    }

    /** The rows for one stream ranking.  The seen tables cannot fill up: the calls so far are few. */
    method EmitStreams(report: Builder, order: seq<nat>, sort: SortBy, ghost calls: seq<Call>) returns (ghost calls': seq<Call>)
      requires report.Valid() && report.View() == Period(calls) && |calls| <= 100
      requires report.streamTable != streamPtrs && report.addrTable != streamPtrs
      requires StreamSlotsExist(streams[..], addrs.Length, order)
      modifies report, report.streamTable, report.addrTable
      ensures report.Valid() && report.View() == Period(calls')
      ensures calls' == calls + StreamCallsFor(streams[..], addrs[..], Top(order, NUM_TOPN_STREAMS), sort)
    {
      hide Consistent;
      hide Period;
      hide Respond;
      hide StreamCalls;
      calls' := calls;
      ghost var all := StreamCallsFor(streams[..], addrs[..], Top(order, NUM_TOPN_STREAMS), sort);
      var n := Min(NUM_TOPN_STREAMS, |order|);
      for i := 0 to n
        invariant report.Valid() && report.View() == Period(calls')
        invariant calls' == calls + all[..i]
      {
        PeriodConsistent(calls');
        var s := streams[order[i]];
        report.TopStreamRow(StreamStat(sort, i, s.packets, s.bytes), s.iid, addrs[s.idxLeft].iid, addrs[s.idxRight].iid);
        PeriodExtends(calls', all[i]);
        calls' := calls' + [all[i]];
      }
      assert all[..n] == all;
    }

    method EmitAddrs(report: Builder, order: seq<nat>, sort: SortBy, lan: bool, ghost calls: seq<Call>) returns (ghost calls': seq<Call>)
      requires report.Valid() && report.View() == Period(calls) && |calls| <= 100
      requires forall k :: 0 <= k < |order| ==> order[k] < addrs.Length
      modifies report, report.streamTable, report.addrTable
      ensures report.Valid() && report.View() == Period(calls')
      ensures calls' == calls + AddrCallsFor(addrs[..], Top(order, NUM_TOPN_ADDRS), sort, lan)
    {
      hide Consistent;
      hide Period;
      hide Respond;
      hide StreamCalls;
      calls' := calls;
      ghost var all := AddrCallsFor(addrs[..], Top(order, NUM_TOPN_ADDRS), sort, lan);
      var n := Min(NUM_TOPN_ADDRS, |order|);
      for i := 0 to n
        invariant report.Valid() && report.View() == Period(calls')
        invariant calls' == calls + all[..i]
      {
        PeriodConsistent(calls');
        var a := addrs[order[i]];
        report.TopAddressRow(AddrStat(sort, PoolFlow(lan), i, a.txpackets, a.txbytes, a.rxpackets, a.rxbytes), a.iid);
        PeriodExtends(calls', all[i]);
        calls' := calls' + [all[i]];
      }
      assert all[..n] == all;
    }

    /** The part of check_minute that copies a pool's window of the shared table. */
    method CopyStreams(shared: array<StreamInfo>, w: Window)
      requires shared != streams && w.lo < w.hi <= streams.Length <= shared.Length
      modifies streams
      ensures streams[..] == Copied(old(streams[..]), shared[..], w)
    {
      forall i | w.lo <= i < w.hi {
        streams[i] := shared[i];
      }
    }

    method CopyAddrs(shared: array<AddrInfo>, w: Window)
      requires shared != addrs && w.lo < w.hi <= addrs.Length <= shared.Length
      modifies addrs
      ensures addrs[..] == Copied(old(addrs[..]), shared[..], w)
    {
      forall i | w.lo <= i < w.hi {
        addrs[i] := shared[i];
      }
    }

    /** The stream rows of the minute report: the top of the two rankings. */
    method ReportStreams(byPackets: seq<nat>, byBytes: seq<nat>, report: Builder) returns (ghost calls: seq<Call>)
      requires StreamSlotsExist(streams[..], addrs.Length, byPackets) && StreamSlotsExist(streams[..], addrs.Length, byBytes)
      requires report.Valid() && report.View() == OPEN
      requires report.streamTable != streamPtrs && report.addrTable != streamPtrs
      modifies report, report.streamTable, report.addrTable
      ensures calls == BothStreamCalls(streams[..], addrs[..], byPackets, byBytes) && |calls| <= 40
      ensures report.Valid() && report.View() == Period(calls)
    {
      hide StreamCall;
      hide StreamSlotsExist;
      hide Consistent;
      hide Respond;
      hide StreamCallsFor;
      calls := [];
      assert Period(calls) == OPEN;
      hide Period;
      calls := EmitStreams(report, byPackets, ByPackets, calls);
      calls := EmitStreams(report, byBytes, ByBytes, calls);
    }

    /** One pool's address rows: by packets sent, then the suspicious lists. */
    method ReportAddrs(w: Window, lan: bool, report: Builder, ghost calls: seq<Call>)
      returns (o: AddrOrders, ghost calls': seq<Call>)
      requires Separate() && w.lo < w.hi <= addrs.Length
      requires lan ==> w.hi - w.lo <= scannerPtrs.Length && w.hi - w.lo <= targetPtrs.Length
      requires report.Valid() && report.View() == Period(calls) && |calls| <= 70
      requires {report.streamTable, report.addrTable} !! {addrPtrs, scannerPtrs, targetPtrs}
      modifies addrs, lastAddrs, addrPtrs, scannerPtrs, targetPtrs, report, report.streamTable, report.addrTable
      ensures var t := AddrsPass(AddrTables(old(addrs[..]), old(lastAddrs[..]), [], [], []), w.lo + 1, w.hi, lan);
              addrs[..] == t.addrs && lastAddrs[..] == t.last
      ensures AddrRanks(old(addrs[..]), addrs[..], o, w, lan)
      ensures AddrSlotsExist(addrs.Length, o) && calls' == calls + AddrCalls(addrs[..], o, lan)
      ensures report.Valid() && report.View() == Period(calls')
      ensures |calls'| <= |calls| + if lan then 30 else 10
    {
      hide Ranked;
      hide AddrsPass;
      hide Period;
      hide Slots;
      hide TxKeys;
      hide ScanKeys;
      hide ServeKeys;
      hide Scans;
      hide Serves;
      hide AddrCallsFor;
      var byTx, scanners, targets := ProcessAddrs(w.lo, w.hi, lan);
      AddrRankings(old(addrs[..]), lan, w, byTx, scanners, targets,
                   TxKeys(addrs[..]), ScanKeys(addrs[..]), ServeKeys(addrs[..]));
      o := AddrOrders(byTx, scanners, targets);
      calls' := EmitAddrs(report, byTx, ByTxPackets, lan, calls);
      calls' := EmitAddrs(report, scanners, ByScannedPorts, lan, calls');
      calls' := EmitAddrs(report, targets, ByServedPorts, lan, calls');
    }

    /** The tables that check_minute starts from, once the windows are copied. */
    ghost function CopiedTables(sharedStreams: array<StreamInfo>, sharedAddrs: array<AddrInfo>, w: Windows): Tables
      requires WindowsFit(w, streams.Length, addrs.Length)
      requires streams.Length <= sharedStreams.Length && addrs.Length <= sharedAddrs.Length
      reads this, streams, lastStreams, addrs, sharedStreams, sharedAddrs
    {
      Tables(Copied(streams[..], sharedStreams[..], w.streams), lastStreams[..],
             Copied(Copied(addrs[..], sharedAddrs[..], w.lan), sharedAddrs[..], w.wan), [])
    }

    /** The taken slots of the working copy and of the shared table refer to existing address slots. */
    ghost predicate RefsExist(sharedStreams: array<StreamInfo>)
      reads this, streams, sharedStreams
    {
      RefsWithin(streams[..], addrs.Length) && RefsWithin(sharedStreams[..], addrs.Length)
    }

    /** check_minute: copies the windows, takes the deltas, ranks and emits the rows. */
    method CheckMinute(sharedStreams: array<StreamInfo>, sharedAddrs: array<AddrInfo>, w: Windows, report: Builder)
      returns (o: Orders, ghost calls: seq<Call>)
      requires Separate() && {sharedStreams} !! {streams, lastStreams} && {sharedAddrs} !! {addrs, lastAddrs}
      requires WindowsFit(w, streams.Length, addrs.Length) && RefsExist(sharedStreams)
      requires streams.Length <= sharedStreams.Length && addrs.Length <= sharedAddrs.Length
      requires w.lan.hi - w.lan.lo <= scannerPtrs.Length && w.lan.hi - w.lan.lo <= targetPtrs.Length
      requires report.Valid()
      requires {report.streamTable, report.addrTable} !! {streamPtrs, addrPtrs, scannerPtrs, targetPtrs}
      modifies streams, lastStreams, addrs, lastAddrs, streamPtrs, addrPtrs, scannerPtrs, targetPtrs
      modifies report, report.streamTable, report.addrTable
      ensures InBounds(old(CopiedTables(sharedStreams, sharedAddrs, w)))
      ensures var start := old(CopiedTables(sharedStreams, sharedAddrs, w));
              var m := MinuteOf(start, old(lastAddrs[..]), w);
              && streams[..] == m.marked.streams && lastStreams[..] == m.marked.last
              && addrs[..] == m.wan.addrs && lastAddrs[..] == m.wan.last
              && MinuteRanks(start, m, o, w)
              && OrdersFit(m, o) && calls == MinuteCalls(m, o)
      ensures report.Valid() && report.View() == Period(calls) && |calls| <= 80
      ensures Consistent(report.View()) && RefsWithin(streams[..], addrs.Length)
      ensures w.lan.hi <= w.wan.lo + 1 ==>
                RowsInOrder(report.View().statRows, old(CopiedTables(sharedStreams, sharedAddrs, w)), old(lastAddrs[..]), o)
    {
      hide MinuteOf;
      hide MinuteCalls;
      hide OrdersFit;
      hide MinuteRanks;
      hide Period;
      hide RowsInOrder;
      ghost var start, last := CopiedTables(sharedStreams, sharedAddrs, w), lastAddrs[..];
      report.PeriodOpen();
      CopyStreams(sharedStreams, w.streams);
      CopyAddrs(sharedAddrs, w.lan);
      CopyAddrs(sharedAddrs, w.wan);
      o, calls := ProcessMinute(w, report);
      if w.lan.hi <= w.wan.lo + 1 {
        MinuteRowsInOrder(start, last, w, o);
      }
    }

    /** The three passes, on the copied windows. */
    method ProcessMinute(w: Windows, report: Builder) returns (o: Orders, ghost calls: seq<Call>)
      requires Separate() && WindowsFit(w, streams.Length, addrs.Length) && InBounds(StreamTables(0))
      requires w.lan.hi - w.lan.lo <= scannerPtrs.Length && w.lan.hi - w.lan.lo <= targetPtrs.Length
      requires report.Valid() && report.View() == OPEN
      requires {report.streamTable, report.addrTable} !! {streamPtrs, addrPtrs, scannerPtrs, targetPtrs}
      modifies streams, lastStreams, addrs, lastAddrs, streamPtrs, addrPtrs, scannerPtrs, targetPtrs
      modifies report, report.streamTable, report.addrTable
      ensures var start := old(StreamTables(0));
              var m := MinuteOf(start, old(lastAddrs[..]), w);
              && streams[..] == m.marked.streams && lastStreams[..] == m.marked.last
              && addrs[..] == m.wan.addrs && lastAddrs[..] == m.wan.last
              && MinuteRanks(start, m, o, w)
              && OrdersFit(m, o) && calls == MinuteCalls(m, o)
      ensures report.Valid() && report.View() == Period(calls) && |calls| <= 80
      ensures Consistent(report.View())
    {
      hide Period;
      hide Consistent;
      hide StreamsPass;
      hide AddrsPass;
      hide Slots;
      hide Ranked;
      hide AddrRanks;
      hide AddrCalls;
      hide BothStreamCalls;
      hide PacketKeys;
      hide ByteKeys;
      hide AddrSlotsExist;
      hide StreamSlotsExist;
      hide StreamRanks;
      hide InBounds;
      ghost var start := StreamTables(0);
      var byPackets, byBytes := ProcessStreams(w.streams.lo, w.streams.hi);
      RankedStreamsExist(start, w.streams, byPackets, byBytes);
      calls := ReportStreams(byPackets, byBytes, report);
      var lan, wan;
      lan, calls := ReportAddrs(w.lan, true, report, calls);
      wan, calls := ReportAddrs(w.wan, false, report, calls);
      o := Orders(byPackets, byBytes, lan, wan);
      PeriodConsistent(calls);
    }
  }

  /** The rankings mention streams whose addresses exist. */
  lemma RankedStreamsExist(t: Tables, w: Window, byPackets: seq<nat>, byBytes: seq<nat>)
    requires InBounds(t) && w.lo < w.hi <= |t.streams|
    requires StreamRanks(t.streams, StreamsPass(t, w.lo + 1, w.hi).streams, byPackets, byBytes, w)
    ensures var r := StreamsPass(t, w.lo + 1, w.hi);
            StreamSlotsExist(r.streams, |r.addrs|, byPackets) && StreamSlotsExist(r.streams, |r.addrs|, byBytes)
  {
    hide StreamsPass;
    hide Slots;
    hide Ranked;
    hide PacketKeys;
    hide ByteKeys;
    hide InBounds;
    hide StreamSlotsExist;
    var r := StreamsPass(t, w.lo + 1, w.hi);
    RankedStreamExists(t, w, byPackets, PacketKeys(r.streams));
    RankedStreamExists(t, w, byBytes, ByteKeys(r.streams));
  }

  lemma RankedStreamExists(t: Tables, w: Window, order: seq<nat>, keys: seq<int>)
    requires InBounds(t) && w.lo < w.hi <= |t.streams|
    requires Ranked(order, Slots(TakenStreams(t.streams), w.lo + 1, w.hi), keys)
    ensures var r := StreamsPass(t, w.lo + 1, w.hi); StreamSlotsExist(r.streams, |r.addrs|, order)
  {
    hide StreamsPass;
    hide Slots;
    hide Ranked;
    hide StreamShown;
    hide StreamLast;
    var r := StreamsPass(t, w.lo + 1, w.hi);
    RankedSlotsTaken(order, TakenStreams(t.streams), w.lo + 1, w.hi, keys);
    forall k | 0 <= k < |order|
      ensures order[k] < |r.streams| && r.streams[order[k]].idxLeft < |r.addrs| && r.streams[order[k]].idxRight < |r.addrs|
    {
      var j := order[k];
      StreamsPassSlots(t, w.lo + 1, w.hi, j);
      ShownKeepsRefs(t.last[j], t.streams[j]);
    }
  }

  lemma ShownKeepsRefs(last: StreamInfo, cur: StreamInfo)
    ensures StreamShown(last, cur).idxLeft == cur.idxLeft && StreamShown(last, cur).idxRight == cur.idxRight
  {
  }

  // ----- what the minute means -----

  /** A LAN address is listed as a scanner (target) exactly when it is live and has seen more than ten
      distinct watched ports on the left (right). */
  lemma SuspectsContactManyPorts(start: Tables, lastAddrs: seq<AddrInfo>, w: Windows, o: Orders, a: nat)
    requires InBounds(start) && WindowsFit(w, |start.streams|, |start.addrs|) && |lastAddrs| == |start.addrs|
    requires MinuteRanks(start, MinuteOf(start, lastAddrs, w), o, w)
    requires w.lan.lo < a < w.lan.hi
    ensures var left := PortsSeen(start, w.streams.lo + 1, w.streams.hi, a, true);
            var right := PortsSeen(start, w.streams.lo + 1, w.streams.hi, a, false);
            var shown := MinuteOf(start, lastAddrs, w).lan.addrs[a];
            && (a in o.lan.scanners <==> !EmptySlot(start.addrs[a].tstart) && |left| > 10)
            && (a in o.lan.targets <==> !EmptySlot(start.addrs[a].tstart) && |right| > 10)
            && (!EmptySlot(start.addrs[a].tstart) ==> ToNat(shown.resvd) == |left| && ToNat(shown.resvd2) == |right|)
  {
    hide StreamsPass;
    hide AddrsPass;
    hide AddrRanks;
    hide Scans;
    hide Serves;
    hide PortsSeen;
    hide Tallied;
    hide AddrShown;
    hide InBounds;
    hide StreamRanks;
    hide ToNat;
    hide PortsFrom;
    var m := MinuteOf(start, lastAddrs, w);
    ScoreCountsPorts(start, w.streams.lo + 1, w.streams.hi, a);
    MarkingKeepsStart(start, w.streams.lo + 1, w.streams.hi, a);
    SuspectsScore(m.marked.addrs, m.lan.addrs, o.lan, w.lan, a);
    AddrsPassSlots(AddrTables(m.marked.addrs, lastAddrs, [], [], []), w.lan.lo + 1, w.lan.hi, true, a);
    ShownKeepsScore(lastAddrs[a], Tallied(m.marked.addrs[a], true));
  }

  lemma MarkingKeepsStart(t: Tables, from: nat, i: nat, a: nat)
    requires InBounds(t) && i <= |t.streams| && a < |t.addrs|
    ensures StreamsPass(t, from, i).addrs[a].tstart == t.addrs[a].tstart
  {
    StreamsPassMarks(t, from, i, a, 0);
  }

  lemma SuspectsScore(before: seq<AddrInfo>, after: seq<AddrInfo>, o: AddrOrders, w: Window, a: nat)
    requires w.lo < a < w.hi <= |before| && AddrRanks(before, after, o, w, true)
    ensures a in o.scanners <==> Scans(before[a], true)
    ensures a in o.targets <==> Serves(before[a], true)
  {
    hide Slots;
    hide Ranked;
    hide Scans;
    hide Serves;
    hide ScanKeys;
    hide ServeKeys;
    RankedIffFlagged(o.scanners, Scanning(before, true), w.lo + 1, w.hi, ScanKeys(after), a);
    RankedIffFlagged(o.targets, Serving(before, true), w.lo + 1, w.hi, ServeKeys(after), a);
  }

  lemma ShownKeepsScore(last: AddrInfo, cur: AddrInfo)
    ensures AddrShown(last, cur).resvd == cur.resvd && AddrShown(last, cur).resvd2 == cur.resvd2
  {
  }

  /** The four counters of an address. */
  function AddrCounts(a: AddrInfo): (nat, nat, nat, nat) {
    (a.txpackets, a.txbytes, a.rxpackets, a.rxbytes)
  }

  /** Every live address of either window ends up showing its deltas. */
  lemma MinuteShowsAddrDeltas(start: Tables, lastAddrs: seq<AddrInfo>, w: Windows, a: nat)
    requires InBounds(start) && WindowsFit(w, |start.streams|, |start.addrs|) && |lastAddrs| == |start.addrs|
    requires w.lan.hi <= w.wan.lo + 1
    requires w.lan.lo < a < w.lan.hi || w.wan.lo < a < w.wan.hi
    requires !EmptySlot(start.addrs[a].tstart)
    ensures var m := MinuteOf(start, lastAddrs, w);
            && AddrCounts(m.wan.addrs[a]) == AddrCounts(AddrShown(lastAddrs[a], start.addrs[a]))
            && m.wan.addrs[a].iid == start.addrs[a].iid
            && |m.wan.last| == |start.addrs| && m.wan.last[a].tstart == start.addrs[a].tstart
            && AddrCounts(m.wan.last[a]) == AddrCounts(start.addrs[a])
  {
    hide StreamsPass;
    hide AddrsPass;
    hide InBounds;
    hide ScoreWord;
    var m := MinuteOf(start, lastAddrs, w);
    StreamsPassMarks(start, w.streams.lo + 1, w.streams.hi, a, 0);
    AddrsPassSlots(AddrTables(m.marked.addrs, lastAddrs, [], [], []), w.lan.lo + 1, w.lan.hi, true, a);
    AddrsPassSlots(AddrTables(m.lan.addrs, m.lan.last, [], [], []), w.wan.lo + 1, w.wan.hi, false, a);
  }

  /** Every live stream of the window is ranked and shows its deltas. */
  lemma MinuteShowsStreamDeltas(start: Tables, lastAddrs: seq<AddrInfo>, w: Windows, o: Orders, j: nat)
    requires InBounds(start) && WindowsFit(w, |start.streams|, |start.addrs|) && |lastAddrs| == |start.addrs|
    requires MinuteRanks(start, MinuteOf(start, lastAddrs, w), o, w)
    requires w.streams.lo < j < w.streams.hi
    ensures j in o.byPackets <==> !EmptySlot(start.streams[j].tstart)
    ensures j in o.byBytes <==> !EmptySlot(start.streams[j].tstart)
    ensures !EmptySlot(start.streams[j].tstart) ==>
              var m := MinuteOf(start, lastAddrs, w);
              && m.marked.streams[j] == StreamShown(start.last[j], start.streams[j])
              && m.marked.last[j] == StreamLast(start.last[j], start.streams[j])
  {
    hide StreamsPass;
    hide AddrsPass;
    hide Slots;
    hide Ranked;
    hide InBounds;
    hide StreamShown;
    hide StreamLast;
    var m := MinuteOf(start, lastAddrs, w);
    RankedIffFlagged(o.byPackets, TakenStreams(start.streams), w.streams.lo + 1, w.streams.hi, PacketKeys(m.marked.streams), j);
    RankedIffFlagged(o.byBytes, TakenStreams(start.streams), w.streams.lo + 1, w.streams.hi, ByteKeys(m.marked.streams), j);
    StreamsPassSlots(start, w.streams.lo + 1, w.streams.hi, j);
  }

  /** Row k of either stream list shows place k and the deltas of the stream in that slot, with the iids
      of its two addresses. */
  lemma StreamRowShowsDelta(start: Tables, lastAddrs: seq<AddrInfo>, w: Windows, o: Orders, byBytes: bool, k: nat)
    requires InBounds(start) && WindowsFit(w, |start.streams|, |start.addrs|) && |lastAddrs| == |start.addrs|
    requires MinuteRanks(start, MinuteOf(start, lastAddrs, w), o, w)
    requires k < |Top(if byBytes then o.byBytes else o.byPackets, NUM_TOPN_STREAMS)|
    ensures var m := MinuteOf(start, lastAddrs, w);
            var order := if byBytes then o.byBytes else o.byPackets;
            var sort, j := if byBytes then ByBytes else ByPackets, order[k];
            && StreamSlotsExist(m.marked.streams, |m.marked.addrs|, Top(order, NUM_TOPN_STREAMS))
            && w.streams.lo < j < w.streams.hi && !EmptySlot(start.streams[j].tstart)
            && var ss, d := start.streams[j], StreamShown(start.last[j], start.streams[j]);
               StreamCallsFor(m.marked.streams, m.marked.addrs, Top(order, NUM_TOPN_STREAMS), sort)[k]
               == OnTopStream(StreamStat(sort, k, d.packets, d.bytes), ss.iid,
                              start.addrs[ss.idxLeft].iid, start.addrs[ss.idxRight].iid)
  {
    hide StreamsPass;
    hide AddrsPass;
    hide Slots;
    hide Ranked;
    hide AddrRanks;
    var m := MinuteOf(start, lastAddrs, w);
    var order := if byBytes then o.byBytes else o.byPackets;
    var keys := if byBytes then ByteKeys(m.marked.streams) else PacketKeys(m.marked.streams);
    RankedStreamExists(start, w.streams, order, keys);
    RankedSlotsTaken(order, TakenStreams(start.streams), w.streams.lo + 1, w.streams.hi, keys);
    var j := order[k];
    StreamsPassSlots(start, w.streams.lo + 1, w.streams.hi, j);
    MarkingKeepsIid(start, w.streams.lo + 1, w.streams.hi, start.streams[j].idxLeft);
    MarkingKeepsIid(start, w.streams.lo + 1, w.streams.hi, start.streams[j].idxRight);
  }

  predicate LiveStream(start: Tables, w: Window, j: nat) {
    w.lo < j < w.hi && j < |start.streams| && !EmptySlot(start.streams[j].tstart)
  }

  predicate LiveAddr(start: Tables, w: Window, a: nat) {
    w.lo < a < w.hi && a < |start.addrs| && !EmptySlot(start.addrs[a].tstart)
  }

  /** The packets or bytes of a stream since the snapshot. */
  function StreamGrowth(start: Tables, j: nat, byBytes: bool): int {
    if j >= |start.streams| || j >= |start.last| then 0
    else if byBytes then StreamShown(start.last[j], start.streams[j]).bytes
    else StreamShown(start.last[j], start.streams[j]).packets
  }

  /** The packets that an address has sent since the snapshot. */
  function Sent(start: Tables, lastAddrs: seq<AddrInfo>, a: nat): int {
    if a < |start.addrs| && a < |lastAddrs| then AddrShown(lastAddrs[a], start.addrs[a]).txpackets else 0
  }

  /** The number of distinct watched ports that an address has met on one side. */
  ghost function Reached(start: Tables, w: Windows, a: nat, left: bool): int {
    if a < |start.addrs| && w.streams.hi <= |start.streams| then
      |PortsSeen(start, w.streams.lo + 1, w.streams.hi, a, left)|
    else 0
  }

  /** The stream rows are the top twenty of the live streams, by what they grew in packets and in bytes. */
  lemma TopRowsAreTop(start: Tables, lastAddrs: seq<AddrInfo>, w: Windows, o: Orders, byBytes: bool)
    requires InBounds(start) && WindowsFit(w, |start.streams|, |start.addrs|) && |lastAddrs| == |start.addrs|
    requires MinuteRanks(start, MinuteOf(start, lastAddrs, w), o, w)
    ensures IsTop(Top(if byBytes then o.byBytes else o.byPackets, 20), 20,
                  (j: nat) => LiveStream(start, w.streams, j), (j: nat) => StreamGrowth(start, j, byBytes))
  {
    hide StreamsPass;
    hide AddrsPass;
    hide Slots;
    hide Ranked;
    hide AddrRanks;
    hide StreamShown;
    hide StreamLast;
    hide Top;
    hide IsTop;
    var m := MinuteOf(start, lastAddrs, w);
    var order := if byBytes then o.byBytes else o.byPackets;
    var keys := if byBytes then ByteKeys(m.marked.streams) else PacketKeys(m.marked.streams);
    forall j: nat | LiveStream(start, w.streams, j)
      ensures KeyOf(keys, j) == StreamGrowth(start, j, byBytes)
    {
      StreamsPassSlots(start, w.streams.lo + 1, w.streams.hi, j);
    }
    RankedIsTop(order, TakenStreams(start.streams), w.streams.lo + 1, w.streams.hi, keys, 20,
                (j: nat) => LiveStream(start, w.streams, j), (j: nat) => StreamGrowth(start, j, byBytes));
  }

  /** The address pass of either pool starts from the addresses of the shared table and shows what they sent. */
  lemma PoolShows(start: Tables, lastAddrs: seq<AddrInfo>, w: Windows, lan: bool, a: nat)
    requires InBounds(start) && WindowsFit(w, |start.streams|, |start.addrs|) && |lastAddrs| == |start.addrs|
    requires w.lan.hi <= w.wan.lo + 1
    requires var pool := if lan then w.lan else w.wan; pool.lo < a < pool.hi
    ensures var m := MinuteOf(start, lastAddrs, w);
            var before, after := if lan then m.marked.addrs else m.lan.addrs, if lan then m.lan.addrs else m.wan.addrs;
            && before[a].tstart == start.addrs[a].tstart
            && (!EmptySlot(start.addrs[a].tstart) ==> AddrCounts(after[a]) == AddrCounts(AddrShown(lastAddrs[a], start.addrs[a])))
            && (!EmptySlot(start.addrs[a].tstart) ==> after[a].iid == start.addrs[a].iid)
  {
    hide StreamsPass;
    hide AddrsPass;
    hide ScoreWord;
    hide InBounds;
    var m := MinuteOf(start, lastAddrs, w);
    StreamsPassMarks(start, w.streams.lo + 1, w.streams.hi, a, 0);
    AddrsPassSlots(AddrTables(m.marked.addrs, lastAddrs, [], [], []), w.lan.lo + 1, w.lan.hi, true, a);
    AddrsPassSlots(AddrTables(m.lan.addrs, m.lan.last, [], [], []), w.wan.lo + 1, w.wan.hi, false, a);
  }

  /** The rows of senders, of either pool, are the top ten of its live addresses by packets sent. */
  lemma TopSendersAreTop(start: Tables, lastAddrs: seq<AddrInfo>, w: Windows, o: Orders, lan: bool)
    requires InBounds(start) && WindowsFit(w, |start.streams|, |start.addrs|) && |lastAddrs| == |start.addrs|
    requires w.lan.hi <= w.wan.lo + 1
    requires MinuteRanks(start, MinuteOf(start, lastAddrs, w), o, w)
    ensures IsTop(Top(if lan then o.lan.byTx else o.wan.byTx, 10), 10,
                  (a: nat) => LiveAddr(start, if lan then w.lan else w.wan, a), (a: nat) => Sent(start, lastAddrs, a))
  {
    hide MinuteOf;
    hide InBounds;
    hide Slots;
    hide Ranked;
    hide Top;
    hide IsTop;
    hide StreamRanks;
    hide AddrShown;
    var m := MinuteOf(start, lastAddrs, w);
    var order, pool := if lan then o.lan.byTx else o.wan.byTx, if lan then w.lan else w.wan;
    var before, after := if lan then m.marked.addrs else m.lan.addrs, if lan then m.lan.addrs else m.wan.addrs;
    forall a: nat | pool.lo < a < pool.hi
      ensures LiveAddr(start, pool, a) <==> TakenAddrs(before)[a]
      ensures LiveAddr(start, pool, a) ==> KeyOf(TxKeys(after), a) == Sent(start, lastAddrs, a)
    {
      PoolShows(start, lastAddrs, w, lan, a);
    }
    RankedIsTop(order, TakenAddrs(before), pool.lo + 1, pool.hi, TxKeys(after), 10,
                (a: nat) => LiveAddr(start, pool, a), (a: nat) => Sent(start, lastAddrs, a));
  }

  /** The rows of LAN scanners (targets) are the top ten of the live addresses that met more than ten watched ports
      on the left (right), by that number; the WAN has no such rows. */
  lemma TopSuspectsAreTop(start: Tables, lastAddrs: seq<AddrInfo>, w: Windows, o: Orders, left: bool)
    requires InBounds(start) && WindowsFit(w, |start.streams|, |start.addrs|) && |lastAddrs| == |start.addrs|
    requires MinuteRanks(start, MinuteOf(start, lastAddrs, w), o, w)
    ensures IsTop(Top(if left then o.lan.scanners else o.lan.targets, 10), 10,
                  (a: nat) => LiveAddr(start, w.lan, a) && Reached(start, w, a, left) > 10, (a: nat) => Reached(start, w, a, left))
    ensures o.wan.scanners == [] == o.wan.targets
  {
    hide MinuteOf;
    hide InBounds;
    hide Slots;
    hide Ranked;
    hide Top;
    hide IsTop;
    hide StreamRanks;
    hide PortsSeen;
    hide Scans;
    hide Serves;
    hide ToNat;
    var m := MinuteOf(start, lastAddrs, w);
    var order := if left then o.lan.scanners else o.lan.targets;
    var flags := if left then Scanning(m.marked.addrs, true) else Serving(m.marked.addrs, true);
    var keys := if left then ScanKeys(m.lan.addrs) else ServeKeys(m.lan.addrs);
    forall a: nat | w.lan.lo < a < w.lan.hi
      ensures (LiveAddr(start, w.lan, a) && Reached(start, w, a, left) > 10) <==> flags[a]
      ensures flags[a] ==> KeyOf(keys, a) == Reached(start, w, a, left)
    {
      SuspectsContactManyPorts(start, lastAddrs, w, o, a);
      RankedIffFlagged(order, flags, w.lan.lo + 1, w.lan.hi, keys, a);
    }
    RankedIsTop(order, flags, w.lan.lo + 1, w.lan.hi, keys, 10,
                (a: nat) => LiveAddr(start, w.lan, a) && Reached(start, w, a, left) > 10, (a: nat) => Reached(start, w, a, left));
    AddrRankings(m.lan.addrs, false, w.wan, o.wan.byTx, o.wan.scanners, o.wan.targets,
                 TxKeys(m.wan.addrs), ScanKeys(m.wan.addrs), ServeKeys(m.wan.addrs));
  }

  lemma MarkingKeepsIid(t: Tables, from: nat, i: nat, a: nat)
    requires InBounds(t) && i <= |t.streams| && a < |t.addrs|
    ensures StreamsPass(t, from, i).addrs[a].iid == t.addrs[a].iid
  {
    StreamsPassMarks(t, from, i, a, 0);
  }

  /** Whatever list a taken address slot is on, its row shows the address's deltas. */
  lemma AddrRowShowsDelta(start: Tables, lastAddrs: seq<AddrInfo>, w: Windows, lan: bool, a: nat, sort: SortBy, k: nat)
    requires InBounds(start) && WindowsFit(w, |start.streams|, |start.addrs|) && |lastAddrs| == |start.addrs|
    requires w.lan.hi <= w.wan.lo + 1
    requires if lan then w.lan.lo < a < w.lan.hi else w.wan.lo < a < w.wan.hi
    requires !EmptySlot(start.addrs[a].tstart)
    ensures var m := MinuteOf(start, lastAddrs, w);
            var d := AddrShown(lastAddrs[a], start.addrs[a]);
            AddrCall((if lan then m.lan else m.wan).addrs[a], sort, lan, k)
            == OnTopAddress(AddrStat(sort, PoolFlow(lan), k, d.txpackets, d.txbytes, d.rxpackets, d.rxbytes), start.addrs[a].iid)
  {
    hide MinuteOf;
    hide InBounds;
    hide AddrShown;
    PoolShows(start, lastAddrs, w, lan, a);
  }

  // ----- the rows of a minute report -----

  /** The row for place k of a list of streams. */
  function GrowthRow(start: Tables, j: nat, sort: SortBy, k: nat): StatRow
    requires j < |start.streams| && j < |start.last|
  {
    var d := StreamShown(start.last[j], start.streams[j]);
    TopStream(StreamStat(sort, k, d.packets, d.bytes), start.streams[j].iid)
  }

  /** The row for place k of a list of addresses, with the flow flags of the list. */
  function TrafficRow(start: Tables, lastAddrs: seq<AddrInfo>, a: nat, sort: SortBy, flow: nat, k: nat): StatRow
    requires a < |start.addrs| && a < |lastAddrs|
  {
    var d := AddrShown(lastAddrs[a], start.addrs[a]);
    TopAddress(AddrStat(sort, flow, k, d.txpackets, d.txbytes, d.rxpackets, d.rxbytes), start.addrs[a].iid)
  }

  /** From row at on, the streams of the list. */
  ghost predicate StreamRowsAt(rows: seq<StatRow>, at: nat, start: Tables, slots: seq<nat>, sort: SortBy) {
    && at + |slots| <= |rows|
    && forall k: nat :: k < |slots| ==>
         slots[k] < |start.streams| && slots[k] < |start.last| && rows[at + k] == GrowthRow(start, slots[k], sort, k)
  }

  /** From row at on, the addresses of the list. */
  ghost predicate AddrRowsAt(rows: seq<StatRow>, at: nat, start: Tables, lastAddrs: seq<AddrInfo>, slots: seq<nat>,
                             sort: SortBy, flow: nat)
  {
    && at + |slots| <= |rows|
    && forall k: nat :: k < |slots| ==>
         slots[k] < |start.addrs| && slots[k] < |lastAddrs| && rows[at + k] == TrafficRow(start, lastAddrs, slots[k], sort, flow, k)
  }

  /** The top rows of a report are, in this order: the streams by packets and by bytes, then for the LAN (flow 4) the
      senders, the scanners and the targets, then for the WAN (flow 0) the senders. */
  ghost predicate RowsInOrder(rows: seq<StatRow>, start: Tables, lastAddrs: seq<AddrInfo>, o: Orders) {
    var p, b := Top(o.byPackets, 20), Top(o.byBytes, 20);
    var x, y, z, u := Top(o.lan.byTx, 10), Top(o.lan.scanners, 10), Top(o.lan.targets, 10), Top(o.wan.byTx, 10);
    && |rows| == |p| + |b| + |x| + |y| + |z| + |u|
    && StreamRowsAt(rows, 0, start, p, ByPackets)
    && StreamRowsAt(rows, |p|, start, b, ByBytes)
    && AddrRowsAt(rows, |p| + |b|, start, lastAddrs, x, ByTxPackets, 4)
    && AddrRowsAt(rows, |p| + |b| + |x|, start, lastAddrs, y, ByScannedPorts, 4)
    && AddrRowsAt(rows, |p| + |b| + |x| + |y|, start, lastAddrs, z, ByServedPorts, 4)
    && AddrRowsAt(rows, |p| + |b| + |x| + |y| + |z|, start, lastAddrs, u, ByTxPackets, 0)
  }

  /** Part of the rows answers these calls. */
  ghost predicate AnswersAt(rows: seq<StatRow>, at: nat, calls: seq<Call>) {
    at + |calls| <= |rows| && forall k: nat :: k < |calls| ==> rows[at + k] == RowOf(calls[k])
  }

  lemma AnswersPart(rows: seq<StatRow>, pre: seq<Call>, part: seq<Call>, post: seq<Call>)
    requires AnswersAt(rows, 0, pre + part + post)
    ensures AnswersAt(rows, |pre|, part)
  {
    var calls := pre + part + post;
    forall k: nat | k < |part|
      ensures rows[|pre| + k] == RowOf(part[k])
    {
      assert calls[|pre| + k] == part[k];
      assert rows[0 + (|pre| + k)] == RowOf(calls[|pre| + k]);
    }
  }

  lemma StreamListRows(start: Tables, lastAddrs: seq<AddrInfo>, w: Windows, o: Orders, byBytes: bool, rows: seq<StatRow>, at: nat)
    requires InBounds(start) && WindowsFit(w, |start.streams|, |start.addrs|) && |lastAddrs| == |start.addrs|
    requires var m := MinuteOf(start, lastAddrs, w);
             var order, sort := if byBytes then o.byBytes else o.byPackets, if byBytes then ByBytes else ByPackets;
             && MinuteRanks(start, m, o, w)
             && StreamSlotsExist(m.marked.streams, |m.marked.addrs|, order)
             && AnswersAt(rows, at, StreamCallsFor(m.marked.streams, m.marked.addrs, Top(order, NUM_TOPN_STREAMS), sort))
    ensures StreamRowsAt(rows, at, start, Top(if byBytes then o.byBytes else o.byPackets, 20), if byBytes then ByBytes else ByPackets)
  {
    hide MinuteOf;
    hide MinuteRanks;
    hide StreamCallsFor;
    hide StreamShown;
    hide StreamSlotsExist;
    hide Top;
    var slots := Top(if byBytes then o.byBytes else o.byPackets, 20);
    forall k: nat | k < |slots|
      ensures slots[k] < |start.streams| && slots[k] < |start.last|
      ensures rows[at + k] == GrowthRow(start, slots[k], if byBytes then ByBytes else ByPackets, k)
    {
      StreamRowShowsDelta(start, lastAddrs, w, o, byBytes, k);
      TopPrefix(if byBytes then o.byBytes else o.byPackets, 20, k);
    }
  }

  lemma TopPrefix(order: seq<nat>, n: nat, k: nat)
    requires k < |Top(order, n)|
    ensures k < |order| && Top(order, n)[k] == order[k]
  {
  }

  lemma AddrListRows(start: Tables, lastAddrs: seq<AddrInfo>, w: Windows, lan: bool, slots: seq<nat>, sort: SortBy,
                     rows: seq<StatRow>, at: nat)
    requires InBounds(start) && WindowsFit(w, |start.streams|, |start.addrs|) && |lastAddrs| == |start.addrs|
    requires w.lan.hi <= w.wan.lo + 1
    requires forall k :: 0 <= k < |slots| ==> LiveAddr(start, if lan then w.lan else w.wan, slots[k])
    requires var m := MinuteOf(start, lastAddrs, w);
             var after := if lan then m.lan.addrs else m.wan.addrs;
             (forall k :: 0 <= k < |slots| ==> slots[k] < |after|) && AnswersAt(rows, at, AddrCallsFor(after, slots, sort, lan))
    ensures AddrRowsAt(rows, at, start, lastAddrs, slots, sort, if lan then 4 else 0)
  {
    hide MinuteOf;
    hide InBounds;
    hide AddrShown;
    var m := MinuteOf(start, lastAddrs, w);
    var after := if lan then m.lan.addrs else m.wan.addrs;
    forall k: nat | k < |slots|
      ensures slots[k] < |start.addrs| && slots[k] < |lastAddrs|
      ensures rows[at + k] == TrafficRow(start, lastAddrs, slots[k], sort, if lan then 4 else 0, k)
    {
      AddrRowShowsDelta(start, lastAddrs, w, lan, slots[k], sort, k);
      assert AddrCallsFor(after, slots, sort, lan)[k] == AddrCall(after[slots[k]], sort, lan, k);
    }
  }

  /** What is listed of either pool is live. */
  lemma ListedAreLive(start: Tables, lastAddrs: seq<AddrInfo>, w: Windows, o: Orders)
    requires InBounds(start) && WindowsFit(w, |start.streams|, |start.addrs|) && |lastAddrs| == |start.addrs|
    requires w.lan.hi <= w.wan.lo + 1
    requires MinuteRanks(start, MinuteOf(start, lastAddrs, w), o, w)
    ensures forall k :: 0 <= k < |Top(o.lan.byTx, 10)| ==> LiveAddr(start, w.lan, Top(o.lan.byTx, 10)[k])
    ensures forall k :: 0 <= k < |Top(o.wan.byTx, 10)| ==> LiveAddr(start, w.wan, Top(o.wan.byTx, 10)[k])
    ensures forall k :: 0 <= k < |Top(o.lan.scanners, 10)| ==> LiveAddr(start, w.lan, Top(o.lan.scanners, 10)[k])
    ensures forall k :: 0 <= k < |Top(o.lan.targets, 10)| ==> LiveAddr(start, w.lan, Top(o.lan.targets, 10)[k])
    ensures o.wan.scanners == [] == o.wan.targets
  {
    hide MinuteOf;
    hide MinuteRanks;
    hide InBounds;
    hide Top;
    hide Reached;
    hide Sent;
    TopSendersAreTop(start, lastAddrs, w, o, true);
    TopSendersAreTop(start, lastAddrs, w, o, false);
    TopSuspectsAreTop(start, lastAddrs, w, o, true);
    TopSuspectsAreTop(start, lastAddrs, w, o, false);
  }

  /** The top rows of the report, with their labels, places, flow flags, counters and iids. */
  lemma MinuteRowsInOrder(start: Tables, lastAddrs: seq<AddrInfo>, w: Windows, o: Orders)
    requires InBounds(start) && WindowsFit(w, |start.streams|, |start.addrs|) && |lastAddrs| == |start.addrs|
    requires w.lan.hi <= w.wan.lo + 1
    requires MinuteRanks(start, MinuteOf(start, lastAddrs, w), o, w) && OrdersFit(MinuteOf(start, lastAddrs, w), o)
    ensures RowsInOrder(Period(MinuteCalls(MinuteOf(start, lastAddrs, w), o)).statRows, start, lastAddrs, o)
  {
    hide MinuteOf;
    hide MinuteRanks;
    hide InBounds;
    hide Top;
    hide Period;
    hide AddrCallsFor;
    hide StreamCallsFor;
    hide AddrSlotsExist;
    hide StreamSlotsExist;
    hide MinuteCalls;
    hide RowsInOrder;
    var m := MinuteOf(start, lastAddrs, w);
    var calls := MinuteCalls(m, o);
    var rows := Period(calls).statRows;
    StatRowsAreCalls(calls);
    assert AnswersAt(rows, 0, calls);
    OrderedCalls(start, lastAddrs, w, o, rows);
  }

  lemma OrderedCalls(start: Tables, lastAddrs: seq<AddrInfo>, w: Windows, o: Orders, rows: seq<StatRow>)
    requires InBounds(start) && WindowsFit(w, |start.streams|, |start.addrs|) && |lastAddrs| == |start.addrs|
    requires w.lan.hi <= w.wan.lo + 1
    requires MinuteRanks(start, MinuteOf(start, lastAddrs, w), o, w) && OrdersFit(MinuteOf(start, lastAddrs, w), o)
    requires var calls := MinuteCalls(MinuteOf(start, lastAddrs, w), o); |rows| == |calls| && AnswersAt(rows, 0, calls)
    ensures RowsInOrder(rows, start, lastAddrs, o)
  {
    hide MinuteOf;
    hide MinuteRanks;
    hide InBounds;
    hide AddrCallsFor;
    hide StreamCallsFor;
    hide LiveAddr;
    hide StreamRowsAt;
    hide AddrRowsAt;
    hide AnswersAt;
    hide MinuteCalls;
    var m := MinuteOf(start, lastAddrs, w);
    ListedAreLive(start, lastAddrs, w, o);
    CallsInOrder(m, o);
    var streams, addrs := m.marked.streams, m.marked.addrs;
    var p, b := Top(o.byPackets, 20), Top(o.byBytes, 20);
    var x, y, z, u := Top(o.lan.byTx, 10), Top(o.lan.scanners, 10), Top(o.lan.targets, 10), Top(o.wan.byTx, 10);
    hide Top;
    var P, B := StreamCallsFor(streams, addrs, p, ByPackets), StreamCallsFor(streams, addrs, b, ByBytes);
    var X, Y := AddrCallsFor(m.lan.addrs, x, ByTxPackets, true), AddrCallsFor(m.lan.addrs, y, ByScannedPorts, true);
    var Z, U := AddrCallsFor(m.lan.addrs, z, ByServedPorts, true), AddrCallsFor(m.wan.addrs, u, ByTxPackets, false);
    SixParts(rows, P, B, X, Y, Z, U);
    StreamListRows(start, lastAddrs, w, o, false, rows, 0);
    StreamListRows(start, lastAddrs, w, o, true, rows, |P|);
    AddrListRows(start, lastAddrs, w, true, x, ByTxPackets, rows, |P + B|);
    AddrListRows(start, lastAddrs, w, true, y, ByScannedPorts, rows, |P + B + X|);
    AddrListRows(start, lastAddrs, w, true, z, ByServedPorts, rows, |P + B + X + Y|);
    AddrListRows(start, lastAddrs, w, false, u, ByTxPackets, rows, |P + B + X + Y + Z|);
  }

  lemma SixParts(rows: seq<StatRow>, P: seq<Call>, B: seq<Call>, X: seq<Call>, Y: seq<Call>, Z: seq<Call>, U: seq<Call>)
    requires AnswersAt(rows, 0, P + B + X + Y + Z + U)
    ensures AnswersAt(rows, 0, P) && AnswersAt(rows, |P|, B) && AnswersAt(rows, |P + B|, X)
    ensures AnswersAt(rows, |P + B + X|, Y) && AnswersAt(rows, |P + B + X + Y|, Z) && AnswersAt(rows, |P + B + X + Y + Z|, U)
  {
    hide AnswersAt;
    var calls := P + B + X + Y + Z + U;
    assert calls == [] + P + (B + X + Y + Z + U);
    AnswersPart(rows, [], P, B + X + Y + Z + U);
    assert calls == P + B + (X + Y + Z + U);
    AnswersPart(rows, P, B, X + Y + Z + U);
    assert calls == (P + B) + X + (Y + Z + U);
    AnswersPart(rows, P + B, X, Y + Z + U);
    assert calls == (P + B + X) + Y + (Z + U);
    AnswersPart(rows, P + B + X, Y, Z + U);
    AnswersPart(rows, P + B + X + Y, Z, U);
    assert calls == (P + B + X + Y + Z) + U + [];
    AnswersPart(rows, P + B + X + Y + Z, U, []);
  }

  lemma CallsInOrder(m: Minute, o: Orders)
    requires OrdersFit(m, o) && o.wan.scanners == [] == o.wan.targets
    ensures var streams, addrs := m.marked.streams, m.marked.addrs;
            MinuteCalls(m, o)
            == StreamCallsFor(streams, addrs, Top(o.byPackets, 20), ByPackets) + StreamCallsFor(streams, addrs, Top(o.byBytes, 20), ByBytes)
               + AddrCallsFor(m.lan.addrs, Top(o.lan.byTx, 10), ByTxPackets, true)
               + AddrCallsFor(m.lan.addrs, Top(o.lan.scanners, 10), ByScannedPorts, true)
               + AddrCallsFor(m.lan.addrs, Top(o.lan.targets, 10), ByServedPorts, true)
               + AddrCallsFor(m.wan.addrs, Top(o.wan.byTx, 10), ByTxPackets, false)
  {
    hide StreamCall;
    hide AddrCall;
  }

  lemma RerankSame(order: seq<nat>, between: seq<nat>, candidates: seq<nat>, keys0: seq<int>, keys: seq<int>)
    requires Ranked(between, candidates, keys0) && Ranked(order, between, keys)
    ensures Ranked(order, candidates, keys)
  {
  }
}
