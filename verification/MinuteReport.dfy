// The minute report of statproc/statproc_handlers.c: counter deltas, port-scan marks and the
// top-N rows, computed on the copied window of the shared tables.
module MinuteReport {
  import opened Structs
  import opened Ports
  import opened StatClock
  import D = Deltas

  // ----- one stream slot -----

  function StreamShown(last: StreamInfo, cur: StreamInfo): StreamInfo {
    if cur.tstart == last.tstart
    then cur.(packets := U32Diff(last.packets, cur.packets), bytes := U32Diff(last.bytes, cur.bytes))
    else cur
  }

  function StreamLast(last: StreamInfo, cur: StreamInfo): StreamInfo {
    if cur.tstart == last.tstart then last.(packets := cur.packets, bytes := cur.bytes) else cur
  }

  /** What a slot shows and remembers is, counter by counter, the delta of module Deltas. */
  lemma StreamSlotIsDelta(last: StreamInfo, cur: StreamInfo)
    ensures StreamShown(last, cur).packets == D.Shown(D.Obs(last.tstart, last.packets), D.Obs(cur.tstart, cur.packets))
    ensures StreamShown(last, cur).bytes == D.Shown(D.Obs(last.tstart, last.bytes), D.Obs(cur.tstart, cur.bytes))
    ensures D.Obs(StreamLast(last, cur).tstart, StreamLast(last, cur).packets) == D.Obs(cur.tstart, cur.packets)
    ensures D.Obs(StreamLast(last, cur).tstart, StreamLast(last, cur).bytes) == D.Obs(cur.tstart, cur.bytes)
  {
  }

  /** One of the two counters of a stream. */
  function StreamCount(s: StreamInfo, bytes: bool): int {
    if bytes then s.bytes else s.packets
  }

  function StreamObs(s: StreamInfo, bytes: bool): D.Obs {
    D.Obs(s.tstart, StreamCount(s, bytes))
  }

  function StreamHistory(hist: seq<StreamInfo>, bytes: bool): (r: seq<D.Obs>)
    ensures |r| == |hist| && forall i :: 0 <= i < |hist| ==> r[i] == StreamObs(hist[i], bytes)
  {
    seq(|hist|, i requires 0 <= i < |hist| => StreamObs(hist[i], bytes))
  }

  /** The snapshot of a slot after the reports that found it taken. */
  function SnapshotAfter(hist: seq<StreamInfo>): StreamInfo {
    if hist == [] then NO_STREAM else StreamLast(SnapshotAfter(hist[..|hist| - 1]), hist[|hist| - 1])
  }

  /** The sum of what the reports show in the slot for the tenant that started at t. */
  function SumOfShown(hist: seq<StreamInfo>, t: Tval, bytes: bool): int {
    if hist == [] then 0
    else
      var n := |hist| - 1;
      SumOfShown(hist[..n], t, bytes)
      + if hist[n].tstart == t then StreamCount(StreamShown(SnapshotAfter(hist[..n]), hist[n]), bytes) else 0
  }

  lemma {:induction false} SumOfShownIsSum(hist: seq<StreamInfo>, t: Tval, bytes: bool)
    ensures SumOfShown(hist, t, bytes) == D.SumShown(StreamHistory(hist, bytes), t)
    ensures StreamObs(SnapshotAfter(hist), bytes) == D.LastOf(StreamHistory(hist, bytes))
    decreases |hist|
  {
    if hist != [] {
      var n := |hist| - 1;
      SumOfShownIsSum(hist[..n], t, bytes);
      StreamSlotIsDelta(SnapshotAfter(hist[..n]), hist[n]);
      assert StreamHistory(hist, bytes)[..n] == StreamHistory(hist[..n], bytes);
    }
  }

  /** Over any sequence of reports, what a slot shows for one tenant adds up to that tenant's
      latest cumulative counter, for packets and for bytes. */
  lemma StreamDeltasSum(hist: seq<StreamInfo>, t: Tval, bytes: bool)
    requires D.Tenancies(StreamHistory(hist, bytes))
    ensures SumOfShown(hist, t, bytes) == D.Latest(StreamHistory(hist, bytes), t)
  {
    SumOfShownIsSum(hist, t, bytes);
    D.DeltasSumToCounter(StreamHistory(hist, bytes), t);
  }

  // ----- the stream pass -----

  /** The working copy, the previous snapshot, the copied addresses and the pointer list. */
  datatype Tables = Tables(streams: seq<StreamInfo>, last: seq<StreamInfo>, addrs: seq<AddrInfo>, ptrs: seq<nat>)

  /** Each taken stream slot refers to address slots that exist. */
  ghost predicate InBounds(t: Tables) {
    && |t.streams| == |t.last|
    && forall i :: 0 <= i < |t.streams| && !EmptySlot(t.streams[i].tstart) ==>
         t.streams[i].idxLeft < |t.addrs| && t.streams[i].idxRight < |t.addrs|
  }

  function MarkLeft(addrs: seq<AddrInfo>, s: StreamInfo): (r: seq<AddrInfo>)
    requires s.idxLeft < |addrs|
    ensures |r| == |addrs|
  {
    var a := addrs[s.idxLeft];
    if a.internal then addrs[s.idxLeft := a.(resvd := SetPortBit(a.resvd, s.rport))] else addrs
  }

  function MarkRight(addrs: seq<AddrInfo>, s: StreamInfo): (r: seq<AddrInfo>)
    requires s.idxRight < |addrs|
    ensures |r| == |addrs|
  {
    var a := addrs[s.idxRight];
    if a.internal then addrs[s.idxRight := a.(resvd2 := SetPortBit(a.resvd2, s.rport))] else addrs
  }

  function Marked(addrs: seq<AddrInfo>, s: StreamInfo): (r: seq<AddrInfo>)
    requires s.idxLeft < |addrs| && s.idxRight < |addrs|
    ensures |r| == |addrs|
  {
    MarkRight(MarkLeft(addrs, s), s)
  }

  lemma MarkedBits(addrs: seq<AddrInfo>, s: StreamInfo, a: nat, k: nat)
    requires s.idxLeft < |addrs| && s.idxRight < |addrs| && a < |addrs| && k < 16
    ensures var r, o := Marked(addrs, s)[a], addrs[a];
            && r == o.(resvd := r.resvd, resvd2 := r.resvd2)
            && r.resvd[k] == (o.resvd[k] || (o.internal && a == s.idxLeft && WATCHED[k] == s.rport))
            && r.resvd2[k] == (o.resvd2[k] || (o.internal && a == s.idxRight && WATCHED[k] == s.rport))
  {
    hide SetPortBit;
    SetPortBitSets(addrs[a].resvd, s.rport, k);
    SetPortBitSets(addrs[a].resvd2, s.rport, k);
  }

  ghost function StreamSlot(t: Tables, i: nat): (r: Tables)
    requires InBounds(t) && i < |t.streams|
    ensures InBounds(r) && |r.streams| == |t.streams| && |r.addrs| == |t.addrs|
  {
    var s := t.streams[i];
    if EmptySlot(s.tstart) then t
    else Tables(
           t.streams[i := StreamShown(t.last[i], s)], t.last[i := StreamLast(t.last[i], s)],
           Marked(t.addrs, s), t.ptrs + [i])
  }

  /** The loop over the slots from, from + 1, ..., i - 1. */
  ghost function StreamsPass(t: Tables, from: nat, i: nat): (r: Tables)
    requires InBounds(t) && i <= |t.streams|
    ensures InBounds(r) && |r.streams| == |t.streams| && |r.addrs| == |t.addrs|
    decreases i
  {
    if i <= from then t else StreamSlot(StreamsPass(t, from, i - 1), i - 1)
  }

  /** The slots of [from, i) for which the flag is set, in order. */
  function Slots(flags: seq<bool>, from: nat, i: nat): (r: seq<nat>)
    requires i <= |flags|
    decreases i
  {
    if i <= from then []
    else Slots(flags, from, i - 1) + if flags[i - 1] then [i - 1] else []
  }

  /** r lists each flagged slot of the range, exactly once and in order, and no other. */
  ghost predicate Lists(r: seq<nat>, flags: seq<bool>, from: nat, i: nat)
    requires i <= |flags|
  {
    && (forall k :: 0 <= k < |r| ==> from <= r[k] < i && flags[r[k]])
    && (forall k, l :: 0 <= k < l < |r| ==> r[k] < r[l])
    && (forall j :: from <= j < i && flags[j] ==> j in r)
  }

  lemma {:induction false} SlotsMeaning(flags: seq<bool>, from: nat, i: nat)
    requires i <= |flags|
    ensures Lists(Slots(flags, from, i), flags, from, i)
    decreases i
  {
    if i > from {
      hide Lists;
      SlotsMeaning(flags, from, i - 1);
      ListsNext(Slots(flags, from, i - 1), flags, from, i - 1);
    }
  }

  lemma ListsNext(q: seq<nat>, flags: seq<bool>, from: nat, i: nat)
    requires from <= i < |flags| && Lists(q, flags, from, i)
    ensures Lists(q + if flags[i] then [i] else [], flags, from, i + 1)
  {
    var r := q + if flags[i] then [i] else [];
    assert forall k :: 0 <= k < |q| ==> r[k] == q[k];
    forall j | from <= j < i + 1 && flags[j]
      ensures j in r
    {
      if j == i {
        assert r[|q|] == i;
      }
    }
  }

  function TakenStreams(streams: seq<StreamInfo>): (r: seq<bool>)
    ensures |r| == |streams| && forall j :: 0 <= j < |r| ==> r[j] == !EmptySlot(streams[j].tstart)
  {
    seq(|streams|, j requires 0 <= j < |streams| => !EmptySlot(streams[j].tstart))
  }

  /** Every taken slot of the window becomes a candidate exactly once and shows its delta; all
      other slots keep what they hold. */
  lemma {:induction false} StreamsPassSlots(t: Tables, from: nat, i: nat, j: nat)
    requires InBounds(t) && i <= |t.streams| && j < |t.streams|
    ensures var r := StreamsPass(t, from, i);
            if from <= j < i && !EmptySlot(t.streams[j].tstart)
            then r.streams[j] == StreamShown(t.last[j], t.streams[j]) && r.last[j] == StreamLast(t.last[j], t.streams[j])
            else r.streams[j] == t.streams[j] && r.last[j] == t.last[j]
    decreases i
  {
    hide Marked;
    hide StreamShown;
    hide StreamLast;
    if i > from {
      StreamsPassSlots(t, from, i - 1, j);
    }
  }

  lemma {:induction false} StreamsPassPtrs(t: Tables, from: nat, i: nat)
    requires InBounds(t) && i <= |t.streams| && t.ptrs == []
    ensures StreamsPass(t, from, i).ptrs == Slots(TakenStreams(t.streams), from, i)
    decreases i
  {
    hide InBounds;
    hide Slots;
    hide StreamsPass;
    hide StreamShown;
    hide StreamLast;
    if i > from {
      StreamsPassPtrs(t, from, i - 1);
      StreamsPassSlots(t, from, i - 1, i - 1);
      PtrsStep(t, StreamsPass(t, from, i - 1), from, i);
    } else {
      PtrsStart(t, from, i);
    }
  }

  lemma PtrsStart(t: Tables, from: nat, i: nat)
    requires InBounds(t) && i <= |t.streams| && i <= from
    ensures StreamsPass(t, from, i) == t && Slots(TakenStreams(t.streams), from, i) == []
  {
    hide InBounds;
  }

  lemma PtrsStep(t: Tables, q: Tables, from: nat, i: nat)
    requires InBounds(t) && InBounds(q) && from < i <= |t.streams| == |q.streams| && q == StreamsPass(t, from, i - 1)
    requires q.streams[i - 1] == t.streams[i - 1] && q.ptrs == Slots(TakenStreams(t.streams), from, i - 1)
    ensures StreamsPass(t, from, i).ptrs == Slots(TakenStreams(t.streams), from, i)
  {
    hide StreamSlot;
    hide InBounds;
    StreamSlotPtrs(q, i - 1);
  }

  lemma StreamSlotPtrs(t: Tables, i: nat)
    requires InBounds(t) && i < |t.streams|
    ensures StreamSlot(t, i).ptrs == t.ptrs + if EmptySlot(t.streams[i].tstart) then [] else [i]
  {
    hide Marked;
    hide StreamShown;
    hide StreamLast;
  }

  /** Whether the live stream in slot j has address a on its left (right) and remote port p. */
  predicate Contact(streams: seq<StreamInfo>, j: nat, a: nat, p: nat, left: bool)
    requires j < |streams|
  {
    && !EmptySlot(streams[j].tstart) && streams[j].rport == p
    && a == if left then streams[j].idxLeft else streams[j].idxRight
  }

  ghost predicate Contacted(streams: seq<StreamInfo>, from: nat, i: nat, a: nat, p: nat, left: bool)
    requires i <= |streams|
  {
    exists j: nat :: from <= j < i && Contact(streams, j, a, p, left)
  }

  lemma ContactedStep(streams: seq<StreamInfo>, from: nat, i: nat, a: nat, p: nat, left: bool)
    requires from < i <= |streams|
    ensures Contacted(streams, from, i, a, p, left)
            <==> Contacted(streams, from, i - 1, a, p, left) || Contact(streams, i - 1, a, p, left)
  {
    if j: nat :| from <= j < i && Contact(streams, j, a, p, left) && j != i - 1 {
      assert from <= j < i - 1;
    }
  }

  ghost predicate Marks(t: Tables, from: nat, i: nat, a: nat, k: nat, p: nat)
    requires InBounds(t) && i <= |t.streams| && a < |t.addrs| && k < 16
  {
    var r, o := StreamsPass(t, from, i).addrs[a], t.addrs[a];
    && r == o.(resvd := r.resvd, resvd2 := r.resvd2)
    && r.resvd[k] == (o.resvd[k] || (o.internal && Contacted(t.streams, from, i, a, p, true)))
    && r.resvd2[k] == (o.resvd2[k] || (o.internal && Contacted(t.streams, from, i, a, p, false)))
  }

  /** After the stream pass, bit k of an internal address tells whether one of its streams uses
      the k-th watched port; addresses that are not internal keep their marks. */
  lemma {:induction false} StreamsPassMarks(t: Tables, from: nat, i: nat, a: nat, k: nat)
    requires InBounds(t) && i <= |t.streams| && a < |t.addrs| && k < 16
    ensures Marks(t, from, i, a, k, WATCHED[k])
    decreases i
  {
    if i > from {
      StreamsPassMarks(t, from, i - 1, a, k);
      MarksStep(t, from, i, a, k, WATCHED[k]);
    }
  }

  lemma MarksStep(t: Tables, from: nat, i: nat, a: nat, k: nat, p: nat)
    requires InBounds(t) && from < i <= |t.streams| && a < |t.addrs| && k < 16 && p == WATCHED[k]
    requires EmptySlot(t.streams[i - 1].tstart)
             || (t.streams[i - 1].idxLeft < |t.addrs| && t.streams[i - 1].idxRight < |t.addrs|)
    requires Marks(t, from, i - 1, a, k, p)
    ensures Marks(t, from, i, a, k, p)
  {
    hide Marked;
    hide StreamShown;
    hide StreamLast;
    hide Contacted;
    hide InBounds;
    StreamsPassSlots(t, from, i - 1, i - 1);
    ContactedStep(t.streams, from, i, a, p, true);
    ContactedStep(t.streams, from, i, a, p, false);
    var before := StreamsPass(t, from, i - 1);
    if !EmptySlot(t.streams[i - 1].tstart) {
      MarkedBits(before.addrs, t.streams[i - 1], a, k);
    }
    assert StreamsPass(t, from, i) == StreamSlot(before, i - 1);
  }

  // ----- the address pass -----

  datatype AddrTables = AddrTables(
    addrs: seq<AddrInfo>, last: seq<AddrInfo>, ptrs: seq<nat>, scanners: seq<nat>, targets: seq<nat>)

  const SUSPICIOUS_PORTS_MIN: nat := 10

  /** The LAN pass replaces the port marks by their number. */
  function Tallied(a: AddrInfo, lan: bool): AddrInfo {
    if lan then a.(resvd := ScoreWord(a.resvd), resvd2 := ScoreWord(a.resvd2)) else a
  }

  function AddrShown(last: AddrInfo, cur: AddrInfo): AddrInfo {
    if cur.tstart == last.tstart
    then cur.(txpackets := U32Diff(last.txpackets, cur.txpackets), txbytes := U32Diff(last.txbytes, cur.txbytes),
              rxpackets := U32Diff(last.rxpackets, cur.rxpackets), rxbytes := U32Diff(last.rxbytes, cur.rxbytes))
    else cur
  }

  function AddrLast(last: AddrInfo, cur: AddrInfo): AddrInfo {
    if cur.tstart == last.tstart
    then last.(txpackets := cur.txpackets, txbytes := cur.txbytes, rxpackets := cur.rxpackets, rxbytes := cur.rxbytes)
    else cur
  }

  lemma AddrSlotIsDelta(last: AddrInfo, cur: AddrInfo)
    ensures AddrShown(last, cur).txpackets == D.Shown(D.Obs(last.tstart, last.txpackets), D.Obs(cur.tstart, cur.txpackets))
    ensures AddrShown(last, cur).txbytes == D.Shown(D.Obs(last.tstart, last.txbytes), D.Obs(cur.tstart, cur.txbytes))
    ensures AddrShown(last, cur).rxpackets == D.Shown(D.Obs(last.tstart, last.rxpackets), D.Obs(cur.tstart, cur.rxpackets))
    ensures AddrShown(last, cur).rxbytes == D.Shown(D.Obs(last.tstart, last.rxbytes), D.Obs(cur.tstart, cur.rxbytes))
    ensures var n := AddrLast(last, cur);
            (n.tstart, n.txpackets, n.txbytes, n.rxpackets, n.rxbytes)
            == (cur.tstart, cur.txpackets, cur.txbytes, cur.rxpackets, cur.rxbytes)
  {
  }

  datatype Counter = TxPackets | TxBytes | RxPackets | RxBytes

  function AddrCount(a: AddrInfo, c: Counter): int {
    match c
    case TxPackets => a.txpackets
    case TxBytes => a.txbytes
    case RxPackets => a.rxpackets
    case RxBytes => a.rxbytes
  }

  function AddrObs(a: AddrInfo, c: Counter): D.Obs {
    D.Obs(a.tstart, AddrCount(a, c))
  }

  function AddrHistory(hist: seq<AddrInfo>, c: Counter): (r: seq<D.Obs>)
    ensures |r| == |hist| && forall i :: 0 <= i < |hist| ==> r[i] == AddrObs(hist[i], c)
  {
    seq(|hist|, i requires 0 <= i < |hist| => AddrObs(hist[i], c))
  }

  function AddrSnapshotAfter(hist: seq<AddrInfo>): AddrInfo {
    if hist == [] then NO_ADDR else AddrLast(AddrSnapshotAfter(hist[..|hist| - 1]), hist[|hist| - 1])
  }

  function AddrSumOfShown(hist: seq<AddrInfo>, t: Tval, c: Counter): int {
    if hist == [] then 0
    else
      var n := |hist| - 1;
      AddrSumOfShown(hist[..n], t, c)
      + if hist[n].tstart == t then AddrCount(AddrShown(AddrSnapshotAfter(hist[..n]), hist[n]), c) else 0
  }

  lemma {:induction false} AddrSumIsSum(hist: seq<AddrInfo>, t: Tval, c: Counter)
    ensures AddrSumOfShown(hist, t, c) == D.SumShown(AddrHistory(hist, c), t)
    ensures AddrObs(AddrSnapshotAfter(hist), c) == D.LastOf(AddrHistory(hist, c))
    decreases |hist|
  {
    if hist != [] {
      var n := |hist| - 1;
      AddrSumIsSum(hist[..n], t, c);
      AddrSlotIsDelta(AddrSnapshotAfter(hist[..n]), hist[n]);
      assert AddrHistory(hist, c)[..n] == AddrHistory(hist[..n], c);
    }
  }

  /** The same for each of the four counters of an address. */
  lemma AddrDeltasSum(hist: seq<AddrInfo>, t: Tval, c: Counter)
    requires D.Tenancies(AddrHistory(hist, c))
    ensures AddrSumOfShown(hist, t, c) == D.Latest(AddrHistory(hist, c), t)
  {
    AddrSumIsSum(hist, t, c);
    D.DeltasSumToCounter(AddrHistory(hist, c), t);
  }

  predicate Scans(a: AddrInfo, lan: bool) {
    lan && !EmptySlot(a.tstart) && |PortsFrom(a.resvd, 0)| > SUSPICIOUS_PORTS_MIN
  }

  predicate Serves(a: AddrInfo, lan: bool) {
    lan && !EmptySlot(a.tstart) && |PortsFrom(a.resvd2, 0)| > SUSPICIOUS_PORTS_MIN
  }

  function AddrSlot(t: AddrTables, i: nat, lan: bool): (r: AddrTables)
    requires |t.addrs| == |t.last| && i < |t.addrs|
    ensures |r.addrs| == |r.last| == |t.addrs|
  {
    var a := t.addrs[i];
    if EmptySlot(a.tstart) then t
    else
      var b := Tallied(a, lan);
      AddrTables(
        t.addrs[i := AddrShown(t.last[i], b)], t.last[i := AddrLast(t.last[i], b)], t.ptrs + [i],
        t.scanners + (if Scans(a, lan) then [i] else []), t.targets + if Serves(a, lan) then [i] else [])
  }

  function AddrsPass(t: AddrTables, from: nat, i: nat, lan: bool): (r: AddrTables)
    requires |t.addrs| == |t.last| && i <= |t.addrs|
    ensures |r.addrs| == |r.last| == |t.addrs|
    decreases i
  {
    if i <= from then t else AddrSlot(AddrsPass(t, from, i - 1, lan), i - 1, lan)
  }

  lemma {:induction false} AddrsPassSlots(t: AddrTables, from: nat, i: nat, lan: bool, j: nat)
    requires |t.addrs| == |t.last| && i <= |t.addrs| && j < |t.addrs|
    ensures var r := AddrsPass(t, from, i, lan);
            if from <= j < i && !EmptySlot(t.addrs[j].tstart)
            then r.addrs[j] == AddrShown(t.last[j], Tallied(t.addrs[j], lan))
                 && r.last[j] == AddrLast(t.last[j], Tallied(t.addrs[j], lan))
            else r.addrs[j] == t.addrs[j] && r.last[j] == t.last[j]
    decreases i
  {
    hide AddrShown;
    hide AddrLast;
    hide Tallied;
    hide Scans;
    hide Serves;
    if i > from {
      AddrsPassSlots(t, from, i - 1, lan, j);
    }
  }

  function TakenAddrs(addrs: seq<AddrInfo>): (r: seq<bool>)
    ensures |r| == |addrs| && forall j :: 0 <= j < |r| ==> r[j] == !EmptySlot(addrs[j].tstart)
  {
    seq(|addrs|, j requires 0 <= j < |addrs| => !EmptySlot(addrs[j].tstart))
  }

  function Scanning(addrs: seq<AddrInfo>, lan: bool): (r: seq<bool>)
    ensures |r| == |addrs| && forall j :: 0 <= j < |r| ==> r[j] == Scans(addrs[j], lan)
  {
    seq(|addrs|, j requires 0 <= j < |addrs| => Scans(addrs[j], lan))
  }

  function Serving(addrs: seq<AddrInfo>, lan: bool): (r: seq<bool>)
    ensures |r| == |addrs| && forall j :: 0 <= j < |r| ==> r[j] == Serves(addrs[j], lan)
  {
    seq(|addrs|, j requires 0 <= j < |addrs| => Serves(addrs[j], lan))
  }

  /** The three pointer lists hold exactly the live addresses of the window, and among them those
      that scored above the threshold on either side. */
  lemma {:induction false} AddrsPassLists(t: AddrTables, from: nat, i: nat, lan: bool)
    requires |t.addrs| == |t.last| && i <= |t.addrs| && t.ptrs == [] && t.scanners == [] && t.targets == []
    ensures var r := AddrsPass(t, from, i, lan);
            && r.ptrs == Slots(TakenAddrs(t.addrs), from, i)
            && r.scanners == Slots(Scanning(t.addrs, lan), from, i)
            && r.targets == Slots(Serving(t.addrs, lan), from, i)
    decreases i
  {
    hide Scans;
    hide Serves;
    hide AddrSlot;
    if i > from {
      AddrsPassLists(t, from, i - 1, lan);
      AddrsPassSlots(t, from, i - 1, lan, i - 1);
      AddrListsStep(t, from, i, lan);
    }
  }

  lemma AddrListsStep(t: AddrTables, from: nat, i: nat, lan: bool)
    requires |t.addrs| == |t.last| && from < i <= |t.addrs|
    requires AddrsPass(t, from, i - 1, lan).addrs[i - 1] == t.addrs[i - 1]
    ensures var q, r, a := AddrsPass(t, from, i - 1, lan), AddrsPass(t, from, i, lan), t.addrs[i - 1];
            && r.ptrs == q.ptrs + (if EmptySlot(a.tstart) then [] else [i - 1])
            && r.scanners == q.scanners + (if Scans(a, lan) then [i - 1] else [])
            && r.targets == q.targets + (if Serves(a, lan) then [i - 1] else [])
  {
    hide AddrShown;
    hide AddrLast;
    hide Tallied;
    hide PortsFrom;
  }

  // ----- the port-scan score -----

  /** The watched ports that live streams in the window give address a on one side. */
  ghost function ContactPorts(streams: seq<StreamInfo>, lo: nat, hi: nat, a: nat, left: bool): set<nat>
    requires hi <= |streams|
  {
    set p | p in WATCHED && Contacted(streams, lo, hi, a, p, left)
  }

  /** The watched ports that address a shows after the stream pass: those it was marked with, and, if
      it is internal, those of its live streams on that side. */
  ghost function PortsSeen(t: Tables, from: nat, hi: nat, a: nat, left: bool): set<nat>
    requires hi <= |t.streams| && a < |t.addrs|
  {
    PortsFrom(if left then t.addrs[a].resvd else t.addrs[a].resvd2, 0)
    + if t.addrs[a].internal then ContactPorts(t.streams, from, hi, a, left) else {}
  }

  /** After both passes an address holds the number of distinct ports it has seen, on the left in
      resvd and on the right in resvd2, and it is suspicious exactly above ten. */
  lemma ScoreCountsPorts(t: Tables, from: nat, hi: nat, a: nat)
    requires InBounds(t) && hi <= |t.streams| && a < |t.addrs|
    ensures var r := StreamsPass(t, from, hi).addrs[a];
            var left, right := PortsSeen(t, from, hi, a, true), PortsSeen(t, from, hi, a, false);
            && PortsFrom(r.resvd, 0) == left && PortsFrom(r.resvd2, 0) == right
            && ToNat(Tallied(r, true).resvd) == |left| && ToNat(Tallied(r, true).resvd2) == |right|
            && (Scans(r, true) <==> !EmptySlot(t.addrs[a].tstart) && |left| > 10)
            && (Serves(r, true) <==> !EmptySlot(t.addrs[a].tstart) && |right| > 10)
  {
    hide StreamsPass;
    hide Contacted;
    hide PortsFrom;
    hide InBounds;
    var r, o := StreamsPass(t, from, hi).addrs[a], t.addrs[a];
    StreamsPassMarks(t, from, hi, a, 0);
    forall k: nat | k < 16
      ensures r.resvd[k] == (o.resvd[k] || (o.internal && Contacted(t.streams, from, hi, a, WATCHED[k], true)))
      ensures r.resvd2[k] == (o.resvd2[k] || (o.internal && Contacted(t.streams, from, hi, a, WATCHED[k], false)))
    {
      StreamsPassMarks(t, from, hi, a, k);
    }
    MarksArePorts(r.resvd, o.resvd, t, from, hi, a, true);
    MarksArePorts(r.resvd2, o.resvd2, t, from, hi, a, false);
    ScoreReadsBack(r.resvd);
    ScoreReadsBack(r.resvd2);
    hide ScoreWord;
    hide PortsSeen;
  }

  lemma MarksArePorts(mask: Word16, was: Word16, t: Tables, lo: nat, hi: nat, a: nat, left: bool)
    requires hi <= |t.streams| && a < |t.addrs| && was == if left then t.addrs[a].resvd else t.addrs[a].resvd2
    requires forall k: nat :: k < 16 ==>
               mask[k] == (was[k] || (t.addrs[a].internal && Contacted(t.streams, lo, hi, a, WATCHED[k], left)))
    ensures PortsFrom(mask, 0) == PortsSeen(t, lo, hi, a, left)
  {
    hide Contacted;
    forall p: nat
      ensures p in PortsFrom(mask, 0) <==> p in PortsSeen(t, lo, hi, a, left)
    {
      PortsFromMeans(mask, 0, p);
      PortsFromMeans(was, 0, p);
    }
  }
}
