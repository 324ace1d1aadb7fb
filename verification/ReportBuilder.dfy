// The report rows of export/export.c: addresses and streams are described once a period, and
// the top-N rows refer to them by instance id.
module ReportBuilder {

  datatype StreamRow = StreamRow(iid: nat, left: nat, right: nat)

  datatype SortBy = ByPackets | ByBytes | ByTxPackets | ByScannedPorts | ByServedPorts

  /** The numbers of a top-stream row: what it is sorted by, its place, and the stream's counters. */
  datatype StreamStat = StreamStat(sort: SortBy, rank: nat, packets: nat, bytes: nat)

  /** The numbers of a top-address row; flow tells the pool. */
  datatype AddrStat = AddrStat(
    sort: SortBy, flow: nat, rank: nat, txpackets: nat, txbytes: nat, rxpackets: nat, rxbytes: nat)

  datatype StatRow = TopStream(streamStat: StreamStat, stream: nat) | TopAddress(addrStat: AddrStat, addr: nat)

  /** What a reporting period has seen and emitted: the two seen lists and the three buffers. */
  datatype Report = Report(
    streams: seq<nat>, addrs: seq<nat>, addrRows: seq<nat>, streamRows: seq<StreamRow>, statRows: seq<StatRow>)

  /** One call from the statistics engine. */
  datatype Call =
    | OnTopStream(streamStat: StreamStat, stream: nat, left: nat, right: nat)
    | OnTopAddress(addrStat: AddrStat, addr: nat)

  const OPEN := Report([], [], [], [], [])

  const TABLE_SIZE: nat := 1024

  function SeeAddr(r: Report, iid: nat): Report {
    if iid in r.addrs then r else r.(addrs := r.addrs + [iid], addrRows := r.addrRows + [iid])
  }

  function SeeStream(r: Report, iid: nat, left: nat, right: nat): Report {
    if iid in r.streams then r
    else
      var u := SeeAddr(SeeAddr(r.(streams := r.streams + [iid]), left), right);
      u.(streamRows := u.streamRows + [StreamRow(iid, left, right)])
  }

  function Respond(r: Report, c: Call): Report {
    match c
    case OnTopStream(stat, s, left, right) =>
      var u := SeeStream(r, s, left, right);
      u.(statRows := u.statRows + [TopStream(stat, s)])
    case OnTopAddress(stat, a) =>
      var u := SeeAddr(r, a);
      u.(statRows := u.statRows + [TopAddress(stat, a)])
  }

  function Period(calls: seq<Call>): Report {
    if calls == [] then OPEN else Respond(Period(calls[..|calls| - 1]), calls[|calls| - 1])
  }

  // ----- referential integrity -----

  ghost predicate NoDuplicates(s: seq<nat>) {
    forall i, j :: 0 <= i < j < |s| ==> s[i] != s[j]
  }

  function Iids(rows: seq<StreamRow>): (r: seq<nat>)
    ensures |r| == |rows| && forall i :: 0 <= i < |rows| ==> r[i] == rows[i].iid
  {
    seq(|rows|, i requires 0 <= i < |rows| => rows[i].iid)
  }

  ghost predicate Consistent(r: Report) {
    && NoDuplicates(r.addrRows) && r.addrs == r.addrRows
    && NoDuplicates(r.streams) && r.streams == Iids(r.streamRows)
    && (forall i :: 0 <= i < |r.streamRows| ==>
          r.streamRows[i].left in r.addrRows && r.streamRows[i].right in r.addrRows)
    && (forall i :: 0 <= i < |r.statRows| && r.statRows[i].TopStream? ==> r.statRows[i].stream in r.streams)
    && (forall i :: 0 <= i < |r.statRows| && r.statRows[i].TopAddress? ==> r.statRows[i].addr in r.addrRows)
  }

  lemma SeeAddrConsistent(r: Report, iid: nat)
    requires NoDuplicates(r.addrRows) && r.addrs == r.addrRows
    ensures var u := SeeAddr(r, iid);
            && NoDuplicates(u.addrRows) && u.addrs == u.addrRows && iid in u.addrRows
            && (forall x :: x in r.addrRows ==> x in u.addrRows)
            && |r.addrs| <= |u.addrs| <= |r.addrs| + 1
  {
  }

  lemma SeeStreamConsistent(r: Report, s: nat, left: nat, right: nat)
    requires Consistent(r)
    ensures var u := SeeStream(r, s, left, right);
            Consistent(u) && s in u.streams
            && |u.streams| <= |r.streams| + 1 && |u.addrs| <= |r.addrs| + 2
  {
    if s !in r.streams {
      var r1 := r.(streams := r.streams + [s]);
      SeeAddrConsistent(r1, left);
      var r2 := SeeAddr(r1, left);
      SeeAddrConsistent(r2, right);
      var u := SeeStream(r, s, left, right);
      assert Iids(u.streamRows) == Iids(r.streamRows) + [s];
    }
  }

  lemma RespondConsistent(r: Report, c: Call)
    requires Consistent(r)
    ensures Consistent(Respond(r, c))
    ensures |Respond(r, c).streams| <= |r.streams| + if c.OnTopStream? then 1 else 0
    ensures |Respond(r, c).addrs| <= |r.addrs| + if c.OnTopStream? then 2 else 1
  {
    match c
    case OnTopAddress(_, a) =>
      SeeAddrConsistent(r, a);
    case OnTopStream(_, s, left, right) =>
      hide SeeStream;
      SeeStreamConsistent(r, s, left, right);
  }

  function StreamCalls(calls: seq<Call>): nat {
    if calls == [] then 0
    else StreamCalls(calls[..|calls| - 1]) + if calls[|calls| - 1].OnTopStream? then 1 else 0
  }

  lemma {:induction false} PeriodConsistent(calls: seq<Call>)
    ensures Consistent(Period(calls))
    ensures |Period(calls).streams| <= StreamCalls(calls) <= |calls|
    ensures |Period(calls).addrs| <= |calls| + StreamCalls(calls)
    decreases |calls|
  {
    if calls != [] {
      var before := calls[..|calls| - 1];
      PeriodConsistent(before);
      RespondConsistent(Period(before), calls[|calls| - 1]);
    }
  }

  /** How often x occurs. */
  function Count<T(==)>(s: seq<T>, x: T): nat {
    if s == [] then 0 else Count(s[..|s| - 1], x) + if s[|s| - 1] == x then 1 else 0
  }

  lemma {:induction false} CountOfDistinct(s: seq<nat>, x: nat)
    requires NoDuplicates(s)
    ensures Count(s, x) == if x in s then 1 else 0
    decreases |s|
  {
    if s != [] {
      var n := |s| - 1;
      CountOfDistinct(s[..n], x);
      assert s == s[..n] + [s[n]];
    }
  }

  /** In every reporting period each iid a top row or a stream row refers to is described by
      exactly one row. */
  lemma EveryReferenceHasOneRow(calls: seq<Call>, i: nat)
    ensures var r := Period(calls);
            && (i < |r.statRows| && r.statRows[i].TopStream? ==> Count(Iids(r.streamRows), r.statRows[i].stream) == 1)
            && (i < |r.statRows| && r.statRows[i].TopAddress? ==> Count(r.addrRows, r.statRows[i].addr) == 1)
            && (i < |r.streamRows| ==> Count(r.addrRows, r.streamRows[i].left) == 1)
            && (i < |r.streamRows| ==> Count(r.addrRows, r.streamRows[i].right) == 1)
  {
    PeriodConsistent(calls);
    var r := Period(calls);
    if i < |r.statRows| && r.statRows[i].TopStream? {
      CountOfDistinct(r.streams, r.statRows[i].stream);
    }
    if i < |r.statRows| && r.statRows[i].TopAddress? {
      CountOfDistinct(r.addrRows, r.statRows[i].addr);
    }
    if i < |r.streamRows| {
      CountOfDistinct(r.addrRows, r.streamRows[i].left);
      CountOfDistinct(r.addrRows, r.streamRows[i].right);
    }
  }

  function RowOf(c: Call): StatRow {
    if c.OnTopStream? then TopStream(c.streamStat, c.stream) else TopAddress(c.addrStat, c.addr)
  }

  /** The top rows are the calls themselves, in order. */
  lemma {:induction false} StatRowsAreCalls(calls: seq<Call>)
    ensures |Period(calls).statRows| == |calls|
    ensures forall i :: 0 <= i < |calls| ==> Period(calls).statRows[i] == RowOf(calls[i])
    decreases |calls|
  {
    if calls != [] {
      StatRowsAreCalls(calls[..|calls| - 1]);
    }
  }

  /** Call c is the first one for its stream. */
  predicate FirstFor(calls: seq<Call>, c: nat) {
    && c < |calls| && calls[c].OnTopStream?
    && forall d :: 0 <= d < c && calls[d].OnTopStream? ==> calls[d].stream != calls[c].stream
  }

  /** The row that describes the stream of call c. */
  function RowFor(c: Call): StreamRow
    requires c.OnTopStream?
  {
    StreamRow(c.stream, c.left, c.right)
  }

  /** Every stream row is (stream, left, right) of the first call for its stream. */
  lemma {:induction false} StreamRowsAreFirstCalls(calls: seq<Call>, i: nat) returns (c: nat)
    requires i < |Period(calls).streamRows|
    ensures FirstFor(calls, c) && Period(calls).streamRows[i] == RowFor(calls[c])
    decreases |calls|
  {
    hide Respond;
    hide Consistent;
    var n := |calls| - 1;
    var before := calls[..n];
    RowsGrow(Period(before), calls[n]);
    if i < |Period(before).streamRows| {
      c := StreamRowsAreFirstCalls(before, i);
    } else {
      c := n;
      forall d | 0 <= d < n && calls[d].OnTopStream?
        ensures calls[d].stream != calls[n].stream
      {
        CalledIsSeen(before, d);
      }
    }
  }

  /** A call adds no stream row, or one: its own, if the stream was not seen yet. */
  lemma RowsGrow(r: Report, c: Call)
    ensures Respond(r, c).streamRows
            == r.streamRows + if c.OnTopStream? && c.stream !in r.streams then [RowFor(c)] else []
    ensures forall s :: s in r.streams ==> s in Respond(r, c).streams
    ensures c.OnTopStream? ==> c.stream in Respond(r, c).streams
  {
  }

  lemma {:induction false} CalledIsSeen(calls: seq<Call>, d: nat)
    requires d < |calls| && calls[d].OnTopStream?
    ensures calls[d].stream in Period(calls).streams
    decreases |calls|
  {
    var n := |calls| - 1;
    RowsGrow(Period(calls[..n]), calls[n]);
    if d < n {
      CalledIsSeen(calls[..n], d);
    }
  }

  /** What a call mentions. */
  predicate Mentions(c: Call, iid: nat) {
    match c
    case OnTopStream(_, _, left, right) => iid == left || iid == right
    case OnTopAddress(_, a) => iid == a
  }

  /** No address row is there without a call that mentions it. */
  lemma {:induction false} AddrRowsAreMentioned(calls: seq<Call>, iid: nat) returns (c: nat)
    requires iid in Period(calls).addrRows
    ensures c < |calls| && Mentions(calls[c], iid)
    decreases |calls|
  {
    var n := |calls| - 1;
    PeriodConsistent(calls[..n]);
    if iid in Period(calls[..n]).addrRows {
      c := AddrRowsAreMentioned(calls[..n], iid);
    } else {
      c := n;
    }
  }

  // ----- the class -----

  class Builder {
    const streamTable: array<nat>
    const addrTable: array<nat>
    var numStreams: nat
    var numAddrs: nat
    var addrRows: seq<nat>
    var streamRows: seq<StreamRow>
    var statRows: seq<StatRow>

    ghost predicate Valid()
      reads this, streamTable, addrTable
    {
      && streamTable != addrTable
      && numStreams <= streamTable.Length == TABLE_SIZE
      && numAddrs <= addrTable.Length == TABLE_SIZE
    }

    ghost function View(): Report
      requires Valid()
      reads this, streamTable, addrTable
    {
      Report(streamTable[..numStreams], addrTable[..numAddrs], addrRows, streamRows, statRows)
    }

    constructor ()
      ensures Valid() && fresh(streamTable) && fresh(addrTable) && View() == OPEN
    {
      streamTable := new nat[TABLE_SIZE];
      addrTable := new nat[TABLE_SIZE];
      numStreams, numAddrs := 0, 0;
      addrRows, streamRows, statRows := [], [], [];
    }

    /** Opening a period empties the seen lists and starts with new buffers. */
    method PeriodOpen()
      requires Valid()
      modifies this
      ensures Valid() && View() == OPEN
    {
      numStreams, numAddrs := 0, 0;
      addrRows, streamRows, statRows := [], [], [];
    }

    method SeenAddr(iid: nat) returns (seen: bool)
      requires Valid()
      requires iid !in View().addrs ==> numAddrs < TABLE_SIZE
      modifies this`numAddrs, addrTable
      ensures Valid()
      ensures seen <==> iid in old(View().addrs)
      ensures addrTable[..numAddrs] == old(addrTable[..numAddrs]) + if seen then [] else [iid]
    {
      for i := 0 to numAddrs
        invariant iid !in addrTable[..i]
        invariant addrTable[..] == old(addrTable[..])
      {
        if addrTable[i] == iid {
          return true;
        }
      }
      addrTable[numAddrs] := iid;
      numAddrs := numAddrs + 1;
      return false;
    }

    method SeenStream(iid: nat) returns (seen: bool)
      requires Valid()
      requires iid !in View().streams ==> numStreams < TABLE_SIZE
      modifies this`numStreams, streamTable
      ensures Valid()
      ensures seen <==> iid in old(View().streams)
      ensures streamTable[..numStreams] == old(streamTable[..numStreams]) + if seen then [] else [iid]
    {
      for i := 0 to numStreams
        invariant iid !in streamTable[..i]
        invariant streamTable[..] == old(streamTable[..])
      {
        if streamTable[i] == iid {
          return true;
        }
      }
      streamTable[numStreams] := iid;
      numStreams := numStreams + 1;
      return false;
    }

    method DescribeAddr(iid: nat)
      requires Valid()
      requires iid !in View().addrs ==> numAddrs < TABLE_SIZE
      modifies this`numAddrs, this`addrRows, addrTable
      ensures Valid() && View() == SeeAddr(old(View()), iid) && numAddrs <= old(numAddrs) + 1
    {
      var seen := SeenAddr(iid);
      if !seen {
        addrRows := addrRows + [iid];
      }
    }

    method TopStreamRow(stat: StreamStat, stream: nat, left: nat, right: nat)
      requires Valid() && numStreams < TABLE_SIZE && numAddrs + 2 <= TABLE_SIZE
      modifies this, streamTable, addrTable
      ensures Valid() && View() == Respond(old(View()), OnTopStream(stat, stream, left, right))
    {
      var seen := SeenStream(stream);
      if !seen {
        DescribeAddr(left);
        DescribeAddr(right);
        streamRows := streamRows + [StreamRow(stream, left, right)];
      }
      statRows := statRows + [TopStream(stat, stream)];
    }

    method TopAddressRow(stat: AddrStat, addr: nat)
      requires Valid() && numAddrs < TABLE_SIZE
      modifies this, streamTable, addrTable
      ensures Valid() && View() == Respond(old(View()), OnTopAddress(stat, addr))
    {
      DescribeAddr(addr);
      statRows := statRows + [TopAddress(stat, addr)];
    }
  }
}
