// A whole sequence of minute reports: what they show for one tenant of a slot adds up.
module Minutes {
  import opened Structs
  import opened MinuteReport
  import opened Reporter
  import D = Deltas

  /** The working copies of one minute, once the windows are copied, and the windows. */
  datatype Shot = Shot(streams: seq<StreamInfo>, addrs: seq<AddrInfo>, w: Windows)

  /** Tables of n streams and m addresses, with windows inside them and streams that refer into them. */
  ghost predicate ShotFits(x: Shot, n: nat, m: nat) {
    && |x.streams| == n && |x.addrs| == m && WindowsFit(x.w, n, m) && x.w.lan.hi <= x.w.wan.lo + 1
    && RefsWithin(x.streams, m)
  }

  ghost predicate ShotsFit(shots: seq<Shot>, n: nat, m: nat) {
    forall k :: 0 <= k < |shots| ==> ShotFits(shots[k], n, m)
  }

  /** The two snapshots that the reports leave behind. */
  datatype Snapshot = Snapshot(streams: seq<StreamInfo>, addrs: seq<AddrInfo>)

  ghost function Start(x: Shot, last: Snapshot): Tables {
    Tables(x.streams, last.streams, x.addrs, [])
  }

  ghost function Report(x: Shot, last: Snapshot): (r: Minute)
    requires ShotFits(x, |last.streams|, |last.addrs|)
    ensures |r.marked.streams| == |r.marked.last| == |last.streams| && |r.wan.addrs| == |r.wan.last| == |last.addrs|
  {
    MinuteOf(Start(x, last), last.addrs, x.w)
  }

  ghost function After(shots: seq<Shot>, n: nat, m: nat): (last: Snapshot)
    requires ShotsFit(shots, n, m)
    ensures |last.streams| == n && |last.addrs| == m
  {
    if shots == [] then Snapshot(seq(n, i => NO_STREAM), seq(m, i => NO_ADDR))
    else
      var r := Report(shots[|shots| - 1], After(shots[..|shots| - 1], n, m));
      Snapshot(r.marked.last, r.wan.last)
  }

  // ----- streams -----

  predicate StreamTaken(x: Shot, j: nat) {
    x.w.streams.lo < j < x.w.streams.hi && j < |x.streams| && !EmptySlot(x.streams[j].tstart)
  }

  /** What the reports that found slot j taken saw in it. */
  function StreamSeen(shots: seq<Shot>, j: nat): seq<StreamInfo> {
    if shots == [] then []
    else
      var x := shots[|shots| - 1];
      StreamSeen(shots[..|shots| - 1], j) + if StreamTaken(x, j) then [x.streams[j]] else []
  }

  /** The sum of what the reports show in slot j for the tenant that started at t. */
  ghost function StreamTotal(shots: seq<Shot>, n: nat, m: nat, j: nat, t: Tval, bytes: bool): int
    requires ShotsFit(shots, n, m) && j < n
  {
    if shots == [] then 0
    else
      var x, before := shots[|shots| - 1], shots[..|shots| - 1];
      StreamTotal(before, n, m, j, t, bytes)
      + if StreamTaken(x, j) && x.streams[j].tstart == t
        then StreamCount(Report(x, After(before, n, m)).marked.streams[j], bytes) else 0
  }

  lemma ReportSlot(x: Shot, last: Snapshot, j: nat)
    requires ShotFits(x, |last.streams|, |last.addrs|) && j < |last.streams|
    ensures var r := Report(x, last).marked;
            if StreamTaken(x, j)
            then r.streams[j] == StreamShown(last.streams[j], x.streams[j]) && r.last[j] == StreamLast(last.streams[j], x.streams[j])
            else r.last[j] == last.streams[j]
  {
    hide StreamsPass;
    hide AddrsPass;
    hide StreamShown;
    hide StreamLast;
    StreamsPassSlots(Start(x, last), x.w.streams.lo + 1, x.w.streams.hi, j);
  }

  /** The snapshot and the sum follow the history of the slot, minutes in which it is not taken skipped. */
  lemma {:induction false} StreamsFollowHistory(shots: seq<Shot>, n: nat, m: nat, j: nat, t: Tval, bytes: bool)
    requires ShotsFit(shots, n, m) && j < n
    ensures After(shots, n, m).streams[j] == SnapshotAfter(StreamSeen(shots, j))
    ensures StreamTotal(shots, n, m, j, t, bytes) == SumOfShown(StreamSeen(shots, j), t, bytes)
    decreases |shots|
  {
    hide Report;
    hide StreamShown;
    hide StreamLast;
    if shots != [] {
      var x, before := shots[|shots| - 1], shots[..|shots| - 1];
      StreamsFollowHistory(before, n, m, j, t, bytes);
      ReportSlot(x, After(before, n, m), j);
      var h := StreamSeen(before, j);
      if StreamTaken(x, j) {
        assert (h + [x.streams[j]])[..|h|] == h;
      } else {
        assert StreamSeen(shots, j) == h;
      }
    }
  }

  /** Over any sequence of minute reports, what they show for one tenant of a stream slot adds up to the
      tenant's latest counter, for packets and for bytes. */
  lemma StreamReportsAddUp(shots: seq<Shot>, n: nat, m: nat, j: nat, t: Tval, bytes: bool)
    requires ShotsFit(shots, n, m) && j < n
    requires D.Tenancies(StreamHistory(StreamSeen(shots, j), bytes))
    ensures StreamTotal(shots, n, m, j, t, bytes) == D.Latest(StreamHistory(StreamSeen(shots, j), bytes), t)
  {
    StreamsFollowHistory(shots, n, m, j, t, bytes);
    StreamDeltasSum(StreamSeen(shots, j), t, bytes);
  }

  // ----- addresses -----

  predicate AddrTaken(x: Shot, a: nat) {
    && (x.w.lan.lo < a < x.w.lan.hi || x.w.wan.lo < a < x.w.wan.hi)
    && a < |x.addrs| && !EmptySlot(x.addrs[a].tstart)
  }

  function AddrSeen(shots: seq<Shot>, a: nat): seq<AddrInfo> {
    if shots == [] then []
    else
      var x := shots[|shots| - 1];
      AddrSeen(shots[..|shots| - 1], a) + if AddrTaken(x, a) then [x.addrs[a]] else []
  }

  ghost function AddrTotal(shots: seq<Shot>, n: nat, m: nat, a: nat, t: Tval, c: Counter): int
    requires ShotsFit(shots, n, m) && a < m
  {
    if shots == [] then 0
    else
      var x, before := shots[|shots| - 1], shots[..|shots| - 1];
      AddrTotal(before, n, m, a, t, c)
      + if AddrTaken(x, a) && x.addrs[a].tstart == t
        then AddrCount(Report(x, After(before, n, m)).wan.addrs[a], c) else 0
  }

  lemma ReportAddr(x: Shot, last: Snapshot, a: nat, c: Counter)
    requires ShotFits(x, |last.streams|, |last.addrs|) && a < |last.addrs|
    ensures var r := Report(x, last).wan;
            if AddrTaken(x, a)
            then AddrCount(r.addrs[a], c) == AddrCount(AddrShown(last.addrs[a], x.addrs[a]), c)
                 && AddrObs(r.last[a], c) == AddrObs(x.addrs[a], c)
            else r.last[a] == last.addrs[a]
  {
    hide StreamsPass;
    hide AddrsPass;
    if AddrTaken(x, a) {
      MinuteShowsAddrDeltas(Start(x, last), last.addrs, x.w, a);
    } else {
      SkippedAddr(x, last, a);
    }
    hide MinuteOf;
  }

  lemma SkippedAddr(x: Shot, last: Snapshot, a: nat)
    requires ShotFits(x, |last.streams|, |last.addrs|) && a < |last.addrs| && !AddrTaken(x, a)
    ensures Report(x, last).wan.last[a] == last.addrs[a]
  {
    hide StreamsPass;
    hide AddrsPass;
    hide AddrShown;
    hide AddrLast;
    hide Tallied;
    hide InBounds;
    var start := Start(x, last);
    assert InBounds(start) by {
      RefsAreBounds(x, last);
    }
    var m := MinuteOf(start, last.addrs, x.w);
    MarkingKeepsStart(start, x.w.streams.lo + 1, x.w.streams.hi, a);
    AddrsPassSlots(AddrTables(m.marked.addrs, last.addrs, [], [], []), x.w.lan.lo + 1, x.w.lan.hi, true, a);
    AddrsPassSlots(AddrTables(m.lan.addrs, m.lan.last, [], [], []), x.w.wan.lo + 1, x.w.wan.hi, false, a);
  }

  lemma RefsAreBounds(x: Shot, last: Snapshot)
    requires ShotFits(x, |last.streams|, |last.addrs|)
    ensures InBounds(Start(x, last))
  {
  }

  lemma {:induction false} AddrsFollowHistory(shots: seq<Shot>, n: nat, m: nat, a: nat, t: Tval, c: Counter)
    requires ShotsFit(shots, n, m) && a < m
    ensures AddrObs(After(shots, n, m).addrs[a], c) == D.LastOf(AddrHistory(AddrSeen(shots, a), c))
    ensures AddrTotal(shots, n, m, a, t, c) == D.SumShown(AddrHistory(AddrSeen(shots, a), c), t)
    decreases |shots|
  {
    hide Report;
    if shots != [] {
      var x, before := shots[|shots| - 1], shots[..|shots| - 1];
      var last := After(before, n, m);
      AddrsFollowHistory(before, n, m, a, t, c);
      ReportAddr(x, last, a, c);
      var h := AddrSeen(before, a);
      if AddrTaken(x, a) {
        AddrSlotIsDelta(last.addrs[a], x.addrs[a]);
        var seen := AddrHistory(AddrSeen(shots, a), c);
        assert seen[..|h|] == AddrHistory(h, c) && seen[|h|] == AddrObs(x.addrs[a], c);
      } else {
        assert AddrSeen(shots, a) == h;
      }
    }
  }

  /** The same for each of the four counters of an address slot. */
  lemma AddrReportsAddUp(shots: seq<Shot>, n: nat, m: nat, a: nat, t: Tval, c: Counter)
    requires ShotsFit(shots, n, m) && a < m
    requires D.Tenancies(AddrHistory(AddrSeen(shots, a), c))
    ensures AddrTotal(shots, n, m, a, t, c) == D.Latest(AddrHistory(AddrSeen(shots, a), c), t)
  {
    AddrsFollowHistory(shots, n, m, a, t, c);
    D.DeltasSumToCounter(AddrHistory(AddrSeen(shots, a), c), t);
  }
}
