// on_packet of capture/main.c after parsing: look up or create the stream, count, queue on
// FIN or RST, and let the cleanup pass run when the second changes.
module Capture {
  import opened Words
  import opened SlotPool
  import opened StreamKeys
  import opened Structs
  import opened Lifecycle

  // ----- flow flags -----

  predicate IsWeb(port: nat) {
    port == 80 || port == 443 || port == 8080
  }

  /** set_stream_flow_flags on a stream whose flags are clear. */
  function FlowType(leftInternal: bool, rightInternal: bool, rport: nat): nat {
    if leftInternal && rightInternal then FLOW_TYPE_INTERNAL
    else (if IsWeb(rport) then 1 else 0) + if rightInternal then 2 else 0
  }

  /** flowflags & FLOW_FLAG_CLEANUP */
  predicate HasCleanup(flags: nat) {
    flags / 128 % 2 == 1
  }

  /** flowflags | FLOW_FLAG_CLEANUP */
  function SetCleanup(flags: nat): (r: nat)
    ensures HasCleanup(r) && r % 8 == flags % 8
  {
    if HasCleanup(flags) then flags
    else
      assert (flags + 128) / 128 == flags / 128 + 1;
      flags + 128
  }

  /** flowflags & 0x07 */
  function FlowIndex(flags: nat): nat {
    flags % 8
  }

  function Bump(flows: seq<Flow>, k: nat, len: nat): (r: seq<Flow>)
    requires k < |flows|
    ensures |r| == |flows|
  {
    flows[k := Flow(U32(flows[k].packets + 1), U32(flows[k].bytes + len))]
  }

  // ----- one packet -----

  datatype Created = NoSlot | Made(state: State, slot: nat) | CreateFault

  function NewStream(s: State, pkt: Packet, key: StreamKey, l: nat, r: nat): StreamInfo
    requires l < |s.addrs| && r < |s.addrs|
  {
    StreamInfo(pkt.ts, pkt.ts, s.nextStream, l, r, key.lport, key.rport, key.ipproto,
               FlowType(s.addrs[l].internal, s.addrs[r].internal, key.rport), 0, 0)
  }

  /** shm_stream_alloc, then both addresses; a missing address is dereferenced: a fault. */
  function CreateStream(s: State, pkt: Packet, key: StreamKey, isLan: Addr -> bool): Created {
    match Alloc(s.streamPool)
    case NoRoom => NoSlot
    case AssertFails => CreateFault
    case Handed(i, pool) =>
      if i >= |s.streams| then CreateFault
      else
        var s1 := s.(streamPool := pool, streamMap := s.streamMap[key := i]);
        match AddrFor(s1, key.left, pkt.ts, isLan)
        case NoAddr => CreateFault
        case AddrFault => CreateFault
        case GotAddr(s2, l) =>
          match AddrFor(s2, key.right, pkt.ts, isLan)
          case NoAddr => CreateFault
          case AddrFault => CreateFault
          case GotAddr(s3, r) =>
            if l >= |s3.addrs| || r >= |s3.addrs| then CreateFault
            else Made(s3.(streams := s3.streams[i := NewStream(s3, pkt, key, l, r)], nextStream := s3.nextStream + 1), i)
  }

  function IncActive(addrs: seq<AddrInfo>, a: nat): (r: seq<AddrInfo>)
    requires a < |addrs|
    ensures |r| == |addrs|
  {
    addrs[a := addrs[a].(nstreamsActive := U16(addrs[a].nstreamsActive + 1))]
  }

  function Sent(a: AddrInfo, len: nat): AddrInfo {
    a.(txpackets := U32(a.txpackets + 1), txbytes := U32(a.txbytes + len))
  }

  function Received(a: AddrInfo, len: nat): AddrInfo {
    a.(rxpackets := U32(a.rxpackets + 1), rxbytes := U32(a.rxbytes + len))
  }

  /** inc_addr_ctrs. */
  function IncAddrCtrs(addrs: seq<AddrInfo>, l: nat, r: nat, flipped: bool, len: nat): (res: seq<AddrInfo>)
    requires l < |addrs| && r < |addrs|
    ensures |res| == |addrs|
  {
    var src, dst := if flipped then r else l, if flipped then l else r;
    var sent := addrs[src := Sent(addrs[src], len)];
    sent[dst := Received(sent[dst], len)]
  }

  /** inc_stream_counters: the first packet of a stream also counts it at both addresses. */
  function IncStreamCounters(s: State, i: nat, flipped: bool, len: nat): State
    requires HasRefs(s, i)
  {
    var ss := s.streams[i].(packets := U32(s.streams[i].packets + 1), bytes := U32(s.streams[i].bytes + len));
    var counted := if ss.packets == 1 then IncActive(IncActive(s.addrs, ss.idxLeft), ss.idxRight) else s.addrs;
    s.(streams := s.streams[i := ss], addrs := IncAddrCtrs(counted, ss.idxLeft, ss.idxRight, flipped, len))
  }

  /** The stream is marked as seen and, on its first FIN or RST, queued for cleanup. */
  function NoteFlags(s: State, i: nat, pkt: Packet): State
    requires HasRefs(s, i)
  {
    var ss := s.streams[i].(tlast := pkt.ts);
    if pkt.istcp && pkt.isfin && !HasCleanup(ss.flowflags)
    then Enqueue(s, pkt.ts.sec, i).(streams := s.streams[i := ss.(flowflags := SetCleanup(ss.flowflags))])
    else s.(streams := s.streams[i := ss])
  }

  function Track(s: State, i: nat, pkt: Packet, flipped: bool): State
    requires HasRefs(s, i) && |s.flows| == 6
  {
    var s1 := IncStreamCounters(NoteFlags(s, i, pkt), i, flipped, pkt.len);
    var k := FlowIndex(s1.streams[i].flowflags);
    if k < 6 then s1.(flows := Bump(s1.flows, k, pkt.len)) else s1
  }

  datatype Verdict = Ignored | Refused | Counted(slot: nat)

  datatype Step = Fault | Next(state: State, verdict: Verdict)

  /** on_packet up to the cleanup. */
  function Record(s: State, pkt: Packet, isLan: Addr -> bool): Step
    requires |s.flows| == 6
  {
    var (key, flipped) := InitV4(pkt.ipproto, pkt.src, pkt.dst);
    if key.left == 0 || key.right == 0 then Next(s, Ignored)
    else
      var s1 := s.(flows := Bump(s.flows, FLOW_TYPE_TOTAL, pkt.len));
      if key in s.streamMap then
        var i := s.streamMap[key];
        if HasRefs(s1, i) then Next(Track(s1, i, pkt, flipped), Counted(i)) else Fault
      else
        match CreateStream(s1, pkt, key, isLan)
        case NoSlot =>
          Next(s1.(refused := Flow(s.refused.packets + 1, s.refused.bytes + pkt.len)), Refused)
        case CreateFault => Fault
        case Made(s2, i) =>
          if HasRefs(s2, i) && |s2.flows| == 6 then Next(Track(s2, i, pkt, flipped), Counted(i)) else Fault
  }

  /** The last lines of on_packet: a cleanup pass when the second differs from the last one. */
  function Sweep(s: State, sec: nat): State {
    if U32(sec - s.lastSec) > 0 then CleanupPass(s, sec).(lastSec := sec) else s
  }

  /** Whether a packet of this second starts a cleanup pass that has something to release. */
  predicate PassRuns(s: State, sec: nat) {
    U32(sec - s.lastSec) > 0 && sec % 60 >= STAT_PROCESS_TIME_SEC && s.main != []
  }

  /** The pass reads every slot of the window through mga_get, which asserts that it is in the table. */
  predicate LeavesTable(s: State, sec: nat) {
    PassRuns(s, sec) && s.streamPool.hi > |s.streams|
  }

  function OnPacket(s: State, pkt: Packet, isLan: Addr -> bool): Step
    requires |s.flows| == 6
  {
    match Record(s, pkt, isLan)
    case Fault => Fault
    case Next(t, v) =>
      if !v.Counted? then Next(t, v)
      else if LeavesTable(t, pkt.ts.sec) then Fault
      else Next(Sweep(t, pkt.ts.sec), v)
  }

  // ----- flow conservation -----

  /** The flow counters of the five types together. */
  function PacketSum(flows: seq<Flow>): int
    requires |flows| == 6
  {
    flows[0].packets + flows[1].packets + flows[2].packets + flows[3].packets + flows[4].packets
  }

  function ByteSum(flows: seq<Flow>): int
    requires |flows| == 6
  {
    flows[0].bytes + flows[1].bytes + flows[2].bytes + flows[3].bytes + flows[4].bytes
  }

  /** Modulo 2^32 the total is the sum of the types plus what was refused, and every stream's
      masked flow index names one of the five types. */
  ghost predicate FlowsBalance(s: State) {
    && |s.flows| == 6
    && s.flows[5].packets == U32(PacketSum(s.flows) + s.refused.packets)
    && s.flows[5].bytes == U32(ByteSum(s.flows) + s.refused.bytes)
    && FlagsOk(s.streams)
  }

  lemma U32OfSum(x: int, y: int)
    ensures U32(U32(x) + y) == U32(x + y)
  {
    assert x == (x / 0x1_0000_0000) * 0x1_0000_0000 + x % 0x1_0000_0000;
    U32Multiple(U32(x) + y, x / 0x1_0000_0000);
  }

  lemma U32Multiple(x: int, m: int)
    ensures U32(x + m * 0x1_0000_0000) == U32(x)
  {
    assert (x + m * 0x1_0000_0000) % 0x1_0000_0000 == x % 0x1_0000_0000;
  }

  /** Replacing one summand f by f + y in 32 bits moves the 32-bit sum by y. */
  lemma U32Summand(rest: int, f: int, y: int)
    ensures U32(rest + U32(f + y)) == U32(rest + f + y)
  {
    U32OfSum(f + y, rest);
  }

  /** The total was counted, the type or the refusal not yet. */
  ghost predicate Owes(s: State, len: nat) {
    && |s.flows| == 6
    && s.flows[5].packets == U32(PacketSum(s.flows) + s.refused.packets + 1)
    && s.flows[5].bytes == U32(ByteSum(s.flows) + s.refused.bytes + len)
  }

  ghost predicate FlagsOk(streams: seq<StreamInfo>) {
    forall i :: 0 <= i < |streams| ==> FlowIndex(streams[i].flowflags) <= 4
  }

  lemma TotalIsOwed(s: State, len: nat)
    requires FlowsBalance(s)
    ensures Owes(s.(flows := Bump(s.flows, FLOW_TYPE_TOTAL, len)), len)
  {
    U32OfSum(PacketSum(s.flows) + s.refused.packets, 1);
    U32OfSum(ByteSum(s.flows) + s.refused.bytes, len);
  }

  lemma TypePaysOff(s: State, k: nat, len: nat)
    requires Owes(s, len) && k <= 4 && FlagsOk(s.streams)
    ensures FlowsBalance(s.(flows := Bump(s.flows, k, len)))
  {
    var f := s.flows[k];
    U32Summand(PacketSum(s.flows) + s.refused.packets - f.packets, f.packets, 1);
    U32Summand(ByteSum(s.flows) + s.refused.bytes - f.bytes, f.bytes, len);
    hide U32;
    var b := Bump(s.flows, k, len);
    assert PacketSum(b) == PacketSum(s.flows) - f.packets + b[k].packets;
    assert ByteSum(b) == ByteSum(s.flows) - f.bytes + b[k].bytes;
  }

  lemma TrackBalances(s: State, i: nat, pkt: Packet, flipped: bool)
    requires HasRefs(s, i) && Owes(s, pkt.len) && FlagsOk(s.streams)
    ensures FlowsBalance(Track(s, i, pkt, flipped))
  {
    hide IncAddrCtrs;
    hide IncActive;
    hide HasCleanup;
    var s1 := IncStreamCounters(NoteFlags(s, i, pkt), i, flipped, pkt.len);
    assert s1.flows == s.flows && s1.refused == s.refused;
    assert FlagsOk(s1.streams);
    TypePaysOff(s1, FlowIndex(s1.streams[i].flowflags), pkt.len);
  }

  lemma AddrForKeeps(s: State, ip: Addr, ts: Tval, isLan: Addr -> bool)
    ensures var r := AddrFor(s, ip, ts, isLan);
            r.GotAddr? ==>
              && r.state.flows == s.flows && r.state.refused == s.refused && r.state.streams == s.streams
              && |r.state.addrs| == |s.addrs|
  {
    hide Alloc;
  }

  lemma CreateKeepsFlows(s: State, pkt: Packet, key: StreamKey, isLan: Addr -> bool)
    requires FlagsOk(s.streams)
    ensures var r := CreateStream(s, pkt, key, isLan);
            r.Made? ==> r.state.flows == s.flows && r.state.refused == s.refused && FlagsOk(r.state.streams)
  {
    hide AddrFor;
    hide Alloc;
    var r := CreateStream(s, pkt, key, isLan);
    if r.Made? {
      var s1 := s.(streamPool := Alloc(s.streamPool).pool, streamMap := s.streamMap[key := r.slot]);
      AddrForKeeps(s1, key.left, pkt.ts, isLan);
      AddrForKeeps(AddrFor(s1, key.left, pkt.ts, isLan).state, key.right, pkt.ts, isLan);
    }
  }

  lemma SweepKeepsFlows(s: State, sec: nat)
    requires FlowsBalance(s)
    ensures FlowsBalance(Sweep(s, sec))
  {
    hide CleanAll;
    hide FindExpired;
    hide U32;
    var t := FindExpired(s, sec);
    FindExpiredFrame(s, sec);
    CleanAllFrame(t, t.main);
  }

  lemma RecordBalances(s: State, pkt: Packet, isLan: Addr -> bool)
    requires FlowsBalance(s)
    ensures Record(s, pkt, isLan).Next? ==> FlowsBalance(Record(s, pkt, isLan).state)
  {
    hide Track;
    hide CreateStream;
    var (key, flipped) := InitV4(pkt.ipproto, pkt.src, pkt.dst);
    var s1 := s.(flows := Bump(s.flows, FLOW_TYPE_TOTAL, pkt.len));
    TotalIsOwed(s, pkt.len);
    hide InitV4;
    hide Bump;
    hide PacketSum;
    hide ByteSum;
    CreateKeepsFlows(s1, pkt, key, isLan);
    if !(key.left == 0 || key.right == 0) {
      if key in s.streamMap {
        if HasRefs(s1, s.streamMap[key]) {
          TrackBalances(s1, s.streamMap[key], pkt, flipped);
        }
      } else {
        var r := CreateStream(s1, pkt, key, isLan);
        if r.Made? && HasRefs(r.state, r.slot) {
          TrackBalances(r.state, r.slot, pkt, flipped);
        }
      }
    }
  }

  // ----- runs -----

  datatype Outcome = Stopped | Running(state: State)

  /** The state after a sequence of packets; a fault ends the run. */
  function RunPackets(pkts: seq<Packet>, isLan: Addr -> bool): (o: Outcome) {
    if pkts == [] then Running(InitialState())
    else
      match RunPackets(pkts[..|pkts| - 1], isLan)
      case Stopped => Stopped
      case Running(s) =>
        if |s.flows| != 6 then Stopped
        else match OnPacket(s, pkts[|pkts| - 1], isLan)
             case Fault => Stopped
             case Next(t, _) => Running(t)
  }

  lemma InitialBalances()
    ensures FlowsBalance(InitialState())
  {
  }

  /** After every packet of every run the flow counters balance modulo 2^32. */
  lemma {:induction false} EveryRunBalances(pkts: seq<Packet>, isLan: Addr -> bool)
    ensures RunPackets(pkts, isLan).Running? ==> FlowsBalance(RunPackets(pkts, isLan).state)
    decreases |pkts|
  {
    if pkts == [] {
      InitialBalances();
    } else {
      hide FlowsBalance;
      hide Record;
      hide Sweep;
      hide InitialState;
      var n := |pkts| - 1;
      EveryRunBalances(pkts[..n], isLan);
      var o := RunPackets(pkts[..n], isLan);
      if o.Running? && |o.state.flows| == 6 {
        RecordBalances(o.state, pkts[n], isLan);
        if Record(o.state, pkts[n], isLan).Next? {
          SweepKeepsFlows(Record(o.state, pkts[n], isLan).state, pkts[n].ts.sec);
        }
      }
    }
  }
}
