// The life of streams and addresses: common/shmdata.c, capture/cleanup.c and on_packet of
// capture/main.c, as a state machine over parsed packets.
module Lifecycle {
  import opened Words
  import opened SlotPool
  import opened StreamKeys
  import opened Structs
  import opened Ports

  const NUM_ADDRS: nat := 16384
  const NUM_STREAMS: nat := 32768
  const LAN_SIZE: nat := 256
  const MAIN_ROOM: nat := 3276
  const WAIT_ROOM: nat := 1638
  const STAT_PROCESS_TIME_SEC: nat := 15
  const STREAM_EXPIRED_SEC: nat := 30
  const FLOW_TYPE_INTERNAL: nat := 4
  const FLOW_TYPE_TOTAL: nat := 5

  /** A parsed IPv4 packet. */
  datatype Packet = Packet(ts: Tval, ipproto: Proto, src: Endpoint, dst: Endpoint, len: nat, istcp: bool, isfin: bool)

  /** The tables, pools, lookup maps and cleanup lists.  A slot is live while its pool holds it.
      released, gone and refused are a trace: the slots and the addresses that shm_addr_free was
      called for, and the packets that found no stream slot. */
  datatype State = State(
    streams: seq<StreamInfo>, addrs: seq<AddrInfo>,
    streamPool: Pool, lanPool: Pool, wanPool: Pool,
    streamMap: map<StreamKey, nat>, addrMap: map<Addr, nat>,
    main: seq<nat>, wait: seq<nat>,
    flows: seq<Flow>, lastSec: nat, nextStream: nat, nextAddr: nat,
    released: set<nat>, gone: set<Addr>, refused: Flow)
  {
    function Live(): set<int> { streamPool.taken }
    function LiveAddrs(): set<int> { lanPool.taken + wanPool.taken }
  }

  function InitialState(): State {
    State(seq(NUM_STREAMS, i => NO_STREAM), seq(NUM_ADDRS, i => NO_ADDR),
          Init(0, NUM_STREAMS), Init(0, LAN_SIZE), Init(LAN_SIZE, NUM_ADDRS - LAN_SIZE),
          map[], map[], [], [], seq(6, i => Flow(0, 0)), 0, 0, 0, {}, {}, Flow(0, 0))
  }

  // ----- addresses -----

  /** MGA_OP_CLR on an address slot. */
  function Cleared(addrs: seq<AddrInfo>, a: nat): (r: seq<AddrInfo>)
    ensures |r| == |addrs|
    ensures forall b :: 0 <= b < |addrs| ==> r[b] == addrs[b].(tstart := r[b].tstart)
  {
    if a < |addrs| then addrs[a := addrs[a].(tstart := addrs[a].tstart.(sec := 0))] else addrs
  }

  /** shm_addr_free picks the pool by the capacity of the LAN pool. */
  function AddrFree(s: State, a: nat): State {
    var pool := if a >= s.lanPool.total then s.wanPool else s.lanPool;
    var t := s.(addrs := if Releases(pool, a) then Cleared(s.addrs, a) else s.addrs,
                released := s.released + {a},
                gone := s.gone + if a < |s.addrs| then {s.addrs[a].addrOffset} else {});
    if a >= s.lanPool.total then t.(wanPool := Free(pool, a)) else t.(lanPool := Free(pool, a))
  }

  datatype AddrResult = NoAddr | GotAddr(state: State, idx: nat) | AddrFault

  /** What shm_addr_alloc_v4 and its caller write into slot a.  The received bytes are not reset. */
  function NewAddr(s: State, a: nat, ip: Addr, ts: Tval, lan: bool): AddrInfo
    requires a < |s.addrs|
  {
    AddrInfo(ts, s.nextAddr, ip, lan, ZERO16, ZERO16, 0, 0, 0, 0, s.addrs[a].rxbytes)
  }

  /** shm_addr_alloc_v4; an index outside the table is a fault. */
  function AddrAlloc(s: State, ip: Addr, ts: Tval, lan: bool): AddrResult {
    match Alloc(if lan then s.lanPool else s.wanPool)
    case NoRoom => NoAddr
    case AssertFails => AddrFault
    case Handed(a, pool) =>
      if a >= |s.addrs| then AddrFault
      else
        var t := if lan then s.(lanPool := pool) else s.(wanPool := pool);
        GotAddr(t.(addrs := s.addrs[a := NewAddr(s, a, ip, ts, lan)], addrMap := s.addrMap[ip := a],
                   nextAddr := s.nextAddr + 1), a)
  }

  /** Lookup, and allocation on a miss. */
  function AddrFor(s: State, ip: Addr, ts: Tval, isLan: Addr -> bool): AddrResult {
    if ip in s.addrMap then GotAddr(s, s.addrMap[ip]) else AddrAlloc(s, ip, ts, isLan(ip))
  }

  // ----- cleanup -----

  /** The key made from a stored stream. */
  function KeyOf(s: State, i: nat): StreamKey
    requires i < |s.streams| && s.streams[i].idxLeft < |s.addrs| && s.streams[i].idxRight < |s.addrs|
  {
    var ss := s.streams[i];
    InitV4(ss.ipproto, Endpoint(s.addrs[ss.idxLeft].addrOffset, ss.lport),
           Endpoint(s.addrs[ss.idxRight].addrOffset, ss.rport)).0
  }

  /** Whether a stream queued at this second goes on the main list. */
  predicate ToMain(sec: nat) {
    sec % 60 < STAT_PROCESS_TIME_SEC || sec % 60 >= 55
  }

  /** add_stream_to_cleanup_list; a full list drops the entry. */
  function Enqueue(s: State, sec: nat, i: nat): State {
    if ToMain(sec) then if |s.main| < MAIN_ROOM then s.(main := s.main + [i]) else s
    else if |s.wait| < WAIT_ROOM then s.(wait := s.wait + [i]) else s
  }

  predicate IsExpired(s: State, sec: nat, i: nat) {
    i in s.Live() && i < |s.streams| && U32(sec - s.streams[i].tlast.sec) > STREAM_EXPIRED_SEC
  }

  /** The expired streams in slots lo + 1 .. n - 1, in order. */
  function ExpiredBelow(s: State, sec: nat, n: nat): (r: seq<nat>)
    ensures forall k :: 0 <= k < |r| ==> r[k] < n && IsExpired(s, sec, r[k])
    ensures forall k, l :: 0 <= k < l < |r| ==> r[k] < r[l]
  {
    if n <= s.streamPool.lo + 1 then []
    else ExpiredBelow(s, sec, n - 1) + if IsExpired(s, sec, n - 1) then [n - 1] else []
  }

  function EnqueueAll(s: State, sec: nat, slots: seq<nat>): State {
    if slots == [] then s else Enqueue(EnqueueAll(s, sec, slots[..|slots| - 1]), sec, slots[|slots| - 1])
  }

  function FindExpired(s: State, sec: nat): State {
    EnqueueAll(s, sec, ExpiredBelow(s, sec, s.streamPool.hi))
  }

  function DecActive(addrs: seq<AddrInfo>, a: nat): (r: seq<AddrInfo>)
    requires a < |addrs|
    ensures |r| == |addrs|
  {
    addrs[a := addrs[a].(nstreamsActive := U16(addrs[a].nstreamsActive - 1))]
  }

  ghost predicate RefsOk(s: State) {
    forall i :: i in s.Live() ==>
      0 <= i < |s.streams| && s.streams[i].idxLeft < |s.addrs| && s.streams[i].idxRight < |s.addrs|
  }

  predicate HasRefs(s: State, i: nat) {
    i < |s.streams| && s.streams[i].idxLeft < |s.addrs| && s.streams[i].idxRight < |s.addrs|
  }

  /** The address part of releasing a stream: both counts go down, and an address whose count is
      zero is freed. */
  function ReleaseAddrs(s: State, l: nat, r: nat): State
    requires l < |s.addrs| && r < |s.addrs|
  {
    var addrs := DecActive(DecActive(s.addrs, l), r);
    var s1 := s.(addrs := addrs);
    var s2 := if addrs[l].nstreamsActive == 0 then AddrFree(s1, l) else s1;
    if addrs[r].nstreamsActive == 0 then AddrFree(s2, r) else s2
  }

  /** One round of the release loop. */
  function CleanOne(s: State, i: nat): State
    requires HasRefs(s, i)
  {
    var ss := s.streams[i];
    var s1 := ReleaseAddrs(s.(streamMap := s.streamMap - {KeyOf(s, i)}), ss.idxLeft, ss.idxRight);
    s1.(streamPool := Free(s.streamPool, i),
        streams := if Releases(s.streamPool, i) then s.streams[i := ss.(tstart := ss.tstart.(sec := 0))] else s.streams)
  }

  // ----- counting endpoints -----

  function Ends(ss: StreamInfo, a: nat): nat {
    (if ss.idxLeft == a then 1 else 0) + if ss.idxRight == a then 1 else 0
  }

  /** How many endpoints of live streams in slots below n are at address slot a. */
  function Endpoints(streams: seq<StreamInfo>, live: set<int>, a: nat, n: nat): nat
    requires n <= |streams|
  {
    if n == 0 then 0
    else Endpoints(streams, live, a, n - 1) + if n - 1 in live then Ends(streams[n - 1], a) else 0
  }

  function ActiveAt(s: State, a: nat): nat {
    Endpoints(s.streams, s.Live(), a, |s.streams|)
  }

  /** nstreams_active is the number of live stream endpoints at each address slot. */
  ghost predicate CountsAgree(s: State) {
    forall a: nat :: a < |s.addrs| ==> s.addrs[a].nstreamsActive == ActiveAt(s, a) < 0x1_0000
  }

  lemma {:induction false} EndpointsRemove(streams: seq<StreamInfo>, live: set<int>, i: nat, a: nat, n: nat)
    requires n <= |streams| && i < |streams| && i in live
    ensures Endpoints(streams, live - {i}, a, n) == Endpoints(streams, live, a, n) - if i < n then Ends(streams[i], a) else 0
  {
    if n > 0 {
      EndpointsRemove(streams, live, i, a, n - 1);
    }
  }

  /** Only where a live stream points matters. */
  lemma {:induction false} EndpointsCongruent(s1: seq<StreamInfo>, s2: seq<StreamInfo>, live: set<int>, a: nat, n: nat)
    requires n <= |s1| == |s2|
    requires forall i: nat :: i < n && i in live ==> s1[i].idxLeft == s2[i].idxLeft && s1[i].idxRight == s2[i].idxRight
    ensures Endpoints(s1, live, a, n) == Endpoints(s2, live, a, n)
  {
    if n > 0 {
      EndpointsCongruent(s1, s2, live, a, n - 1);
    }
  }

  lemma {:induction false} EndpointsAtLeast(streams: seq<StreamInfo>, live: set<int>, i: nat, a: nat, n: nat)
    requires i < n <= |streams| && i in live
    ensures Endpoints(streams, live, a, n) >= Ends(streams[i], a)
  {
    if i < n - 1 {
      EndpointsAtLeast(streams, live, i, a, n - 1);
    }
  }

  ghost predicate Framed(p: Pool) {
    forall i :: i in p.taken ==> p.lo < i < p.hi
  }

  lemma FreeKeepsFramed(p: Pool, i: nat)
    requires Framed(p)
    ensures Framed(Free(p, i)) && Free(p, i).taken == p.taken - {i}
  {
  }

  // ----- the cleanup pass -----

  /** What the release of one stream does, when the counts are right. */
  lemma CleanOneReleases(s: State, i: nat)
    requires RefsOk(s) && CountsAgree(s) && Framed(s.streamPool) && i in s.Live()
    ensures var t := CleanOne(s, i);
            && t.Live() == s.Live() - {i}
            && RefsOk(t) && CountsAgree(t) && Framed(t.streamPool)
            && (forall a: nat :: a < |s.addrs| ==> ActiveAt(t, a) == ActiveAt(s, a) - Ends(s.streams[i], a))
            && (forall a: nat :: a in t.released <==> a in s.released || Emptied(s, t, a))
  {
    hide Free;
    hide KeyOf;
    var ss := s.streams[i];
    var t := CleanOne(s, i);
    ReleaseAddrsFrame(s.(streamMap := s.streamMap - {KeyOf(s, i)}), ss.idxLeft, ss.idxRight);
    hide ReleaseAddrs;
    FreeKeepsFramed(s.streamPool, i);
    forall a: nat | a < |s.addrs|
      ensures ActiveAt(t, a) == ActiveAt(s, a) - Ends(ss, a)
      ensures t.addrs[a].nstreamsActive == ActiveAt(t, a)
    {
      EndpointsRemove(s.streams, s.Live(), i, a, |s.streams|);
      EndpointsCongruent(s.streams, t.streams, t.Live(), a, |s.streams|);
      EndpointsAtLeast(s.streams, s.Live(), i, a, |s.streams|);
    }
  }

  /** Between s and t the count of address slot a reached zero. */
  ghost predicate Emptied(s: State, t: State, a: nat) {
    a < |s.addrs| && ActiveAt(s, a) > 0 && ActiveAt(t, a) == 0
  }

  /** The release loop over a list of queued streams; an entry that refers outside the tables
      would be undefined and is skipped. */
  function CleanAll(s: State, slots: seq<nat>): State {
    if slots == [] then s
    else
      var t := CleanAll(s, slots[..|slots| - 1]);
      if HasRefs(t, slots[|slots| - 1]) then CleanOne(t, slots[|slots| - 1]) else t
  }

  ghost predicate NoDup(q: seq<nat>) {
    forall i, j :: 0 <= i < j < |q| ==> q[i] != q[j]
  }

  function SetOf(q: seq<nat>): (r: set<int>)
    ensures forall x :: x in r <==> x >= 0 && x in q
  {
    if q == [] then {}
    else
      assert q == q[..|q| - 1] + [q[|q| - 1]];
      SetOf(q[..|q| - 1]) + {q[|q| - 1]}
  }

  /** Everything but the tables, pools, maps and the trace stays. */
  ghost predicate SameQueues(s: State, t: State) {
    && t.main == s.main && t.wait == s.wait && t.flows == s.flows && t.refused == s.refused && t.lastSec == s.lastSec
    && |t.streams| == |s.streams| && |t.addrs| == |s.addrs|
    && t.nextStream == s.nextStream && t.nextAddr == s.nextAddr && t.addrMap == s.addrMap
    && (forall i :: 0 <= i < |s.streams| ==> t.streams[i] == s.streams[i].(tstart := t.streams[i].tstart))
    && (forall a :: 0 <= a < |s.addrs| ==>
          t.addrs[a] == s.addrs[a].(nstreamsActive := t.addrs[a].nstreamsActive, tstart := t.addrs[a].tstart))
  }

  lemma CleanOneFrame(s: State, i: nat)
    requires HasRefs(s, i)
    ensures SameQueues(s, CleanOne(s, i))
  {
    hide Free;
    hide KeyOf;
    ReleaseAddrsFrame(s.(streamMap := s.streamMap - {KeyOf(s, i)}), s.streams[i].idxLeft, s.streams[i].idxRight);
    hide ReleaseAddrs;
  }

  /** Releasing addresses touches their counts, the address pools and the trace only. */
  lemma ReleaseAddrsFrame(s: State, l: nat, r: nat)
    requires l < |s.addrs| && r < |s.addrs|
    ensures var t := ReleaseAddrs(s, l, r);
            && t == s.(addrs := t.addrs, lanPool := t.lanPool, wanPool := t.wanPool, released := t.released, gone := t.gone)
            && |t.addrs| == |s.addrs|
            && (forall a :: 0 <= a < |s.addrs| ==>
                  t.addrs[a] == DecActive(DecActive(s.addrs, l), r)[a].(tstart := t.addrs[a].tstart))
            && t.released == s.released + (if t.addrs[l].nstreamsActive == 0 then {l} else {})
                             + (if t.addrs[r].nstreamsActive == 0 then {r} else {})
  {
    hide AddrFree;
    var addrs := DecActive(DecActive(s.addrs, l), r);
    hide DecActive;
    var s1 := s.(addrs := addrs);
    AddrFreeFrame(s1, l);
    var s2 := if addrs[l].nstreamsActive == 0 then AddrFree(s1, l) else s1;
    AddrFreeFrame(s2, r);
  }

  lemma AddrFreeFrame(s: State, a: nat)
    ensures var t := AddrFree(s, a);
            && t == s.(addrs := t.addrs, lanPool := t.lanPool, wanPool := t.wanPool, released := s.released + {a}, gone := t.gone)
            && |t.addrs| == |s.addrs|
            && (forall b :: 0 <= b < |s.addrs| ==> t.addrs[b] == s.addrs[b].(tstart := t.addrs[b].tstart))
  {
    hide Free;
    hide Releases;
  }

  lemma {:induction false} CleanAllFrame(s: State, slots: seq<nat>)
    ensures SameQueues(s, CleanAll(s, slots))
    decreases |slots|
  {
    if slots != [] {
      hide CleanOne;
      var t := CleanAll(s, slots[..|slots| - 1]);
      CleanAllFrame(s, slots[..|slots| - 1]);
      if HasRefs(t, slots[|slots| - 1]) {
        CleanOneFrame(t, slots[|slots| - 1]);
      }
    }
  }

  /** Releasing distinct live streams frees exactly them, keeps the count equation, and calls
      shm_addr_free for exactly the addresses whose count reached zero. */
  lemma {:induction false} CleanAllReleases(s: State, slots: seq<nat>)
    requires RefsOk(s) && CountsAgree(s) && Framed(s.streamPool)
    requires NoDup(slots) && forall k :: 0 <= k < |slots| ==> slots[k] in s.Live()
    ensures var t := CleanAll(s, slots);
            && t.Live() == s.Live() - SetOf(slots)
            && RefsOk(t) && CountsAgree(t) && Framed(t.streamPool)
            && (forall a: nat :: a < |s.addrs| ==> ActiveAt(t, a) <= ActiveAt(s, a))
            && (forall a: nat :: a in t.released <==> a in s.released || Emptied(s, t, a))
    decreases |slots|
  {
    if slots != [] {
      var n := |slots| - 1;
      var before := slots[..n];
      CleanAllReleases(s, before);
      CleanAllFrame(s, before);
      var t := CleanAll(s, before);
      assert slots[n] !in before;
      assert SetOf(slots) == SetOf(before) + {slots[n]};
      hide CleanOne;
      hide ActiveAt;
      hide CountsAgree;
      hide Framed;
      CleanOneReleases(t, slots[n]);
      CleanOneFrame(t, slots[n]);
      EmptiedTrans(s, t, CleanOne(t, slots[n]));
    }
  }

  lemma EmptiedTrans(s: State, t: State, u: State)
    requires |s.addrs| == |t.addrs|
    requires forall a: nat :: a < |s.addrs| ==> ActiveAt(u, a) <= ActiveAt(t, a) <= ActiveAt(s, a)
    ensures forall a: nat :: Emptied(s, u, a) <==> Emptied(s, t, a) || Emptied(t, u, a)
  {
    hide ActiveAt;
  }

  // ----- the queues -----

  /** Every queued stream is live and queued once. */
  ghost predicate QueuedOnce(s: State) {
    Once(s.main, s.wait, s.Live())
  }

  ghost predicate Once(q: seq<nat>, r: seq<nat>, live: set<int>) {
    && NoDup(q) && NoDup(r)
    && (forall x :: x in q ==> x !in r)
    && (forall x :: x in q || x in r ==> x in live)
  }

  ghost predicate ListsFit(s: State) {
    |s.main| <= MAIN_ROOM && |s.wait| <= WAIT_ROOM
  }

  predicate Queued(s: State, i: nat) {
    i in s.main || i in s.wait
  }

  /** Whether the list this second's entries go to is full. */
  predicate ListFull(s: State, sec: nat) {
    if ToMain(sec) then |s.main| >= MAIN_ROOM else |s.wait| >= WAIT_ROOM
  }

  /** Queueing a live stream keeps every entry unique exactly when the stream is not queued yet or
      the entry is dropped because the list is full. */
  lemma EnqueueKeepsOnceIff(s: State, sec: nat, i: nat)
    requires QueuedOnce(s) && i in s.Live()
    ensures QueuedOnce(Enqueue(s, sec, i)) <==> !Queued(s, i) || ListFull(s, sec)
    ensures ListsFit(s) ==> ListsFit(Enqueue(s, sec, i))
  {
    var t := Enqueue(s, sec, i);
    if Queued(s, i) && !ListFull(s, sec) {
      assert if ToMain(sec) then t.main[|s.main|] == i else t.wait[|s.wait|] == i;
      if k :| 0 <= k < |s.main| && s.main[k] == i {
        assert t.main[k] == i;
      } else {
        var k :| 0 <= k < |s.wait| && s.wait[k] == i;
        assert t.wait[k] == i;
      }
    }
  }

  /** The cleanup pass of a second. */
  function CleanupPass(s: State, sec: nat): State {
    if sec % 60 < STAT_PROCESS_TIME_SEC || s.main == [] then s
    else
      var t := FindExpired(s, sec);
      var u := CleanAll(t, t.main);
      u.(main := if |u.wait| <= MAIN_ROOM then u.wait else u.wait[..MAIN_ROOM], wait := [])
  }

  /** A whole pass over well-kept queues releases exactly the main list, moves the whole wait list
      to the main list, and keeps the counts and the queues right. */
  lemma PassReleasesMainList(s: State, sec: nat)
    requires sec % 60 >= STAT_PROCESS_TIME_SEC && s.main != []
    requires RefsOk(s) && CountsAgree(s) && Framed(s.streamPool) && ListsFit(s)
    requires QueuedOnce(FindExpired(s, sec))
    ensures var f, t := FindExpired(s, sec), CleanupPass(s, sec);
            && t.Live() == s.Live() - SetOf(f.main)
            && t.main == f.wait && t.wait == []
            && QueuedOnce(t) && ListsFit(t)
            && RefsOk(t) && CountsAgree(t) && Framed(t.streamPool)
            && (forall a: nat :: a in t.released <==> a in s.released || Emptied(s, t, a))
  {
    var f := FindExpired(s, sec);
    FindExpiredFrame(s, sec);
    CleanAllReleases(f, f.main);
    CleanAllFrame(f, f.main);
  }

  /** Only the queues change when streams are enqueued. */
  ghost predicate SameBut(s: State, t: State) {
    t == s.(main := t.main, wait := t.wait)
  }

  lemma {:induction false} EnqueueAllFrame(s: State, sec: nat, slots: seq<nat>)
    ensures SameBut(s, EnqueueAll(s, sec, slots))
    ensures ListsFit(s) ==> ListsFit(EnqueueAll(s, sec, slots))
    decreases |slots|
  {
    if slots != [] {
      EnqueueAllFrame(s, sec, slots[..|slots| - 1]);
    }
  }

  lemma FindExpiredFrame(s: State, sec: nat)
    ensures SameBut(s, FindExpired(s, sec)) && (ListsFit(s) ==> ListsFit(FindExpired(s, sec)))
  {
    EnqueueAllFrame(s, sec, ExpiredBelow(s, sec, s.streamPool.hi));
  }

  function Prefix(q: seq<nat>, n: nat): (r: seq<nat>)
    ensures forall k :: 0 <= k < |r| ==> k < |q| && r[k] == q[k]
  {
    if |q| <= n then q else q[..n]
  }

  /** The entries that find room on the list of this second. */
  function Accepted(s: State, sec: nat, slots: seq<nat>): seq<nat>
    requires |s.main| <= MAIN_ROOM && |s.wait| <= WAIT_ROOM
  {
    Prefix(slots, if ToMain(sec) then MAIN_ROOM - |s.main| else WAIT_ROOM - |s.wait|)
  }

  lemma {:induction false} EnqueueAllAppends(s: State, sec: nat, slots: seq<nat>)
    requires ListsFit(s)
    ensures EnqueueAll(s, sec, slots) ==
            if ToMain(sec) then s.(main := s.main + Accepted(s, sec, slots))
            else s.(wait := s.wait + Accepted(s, sec, slots))
    decreases |slots|
  {
    if slots != [] {
      var n := |slots| - 1;
      EnqueueAllAppends(s, sec, slots[..n]);
      var room := if ToMain(sec) then MAIN_ROOM - |s.main| else WAIT_ROOM - |s.wait|;
      assert n < room ==> Prefix(slots, room) == Prefix(slots[..n], room) + [slots[n]];
      assert n >= room ==> Prefix(slots, room) == Prefix(slots[..n], room);
    }
  }

  lemma AppendKeepsNoDup(q: seq<nat>, r: seq<nat>)
    requires NoDup(q) && NoDup(r)
    ensures NoDup(q + r) <==> forall k :: 0 <= k < |r| ==> r[k] !in q
  {
    if NoDup(q + r) {
      forall k | 0 <= k < |r|
        ensures r[k] !in q
      {
        assert (q + r)[|q| + k] == r[k];
        assert forall j :: 0 <= j < |q| ==> (q + r)[j] == q[j];
      }
    }
  }

  /** No expired stream that finds room on the list of this second is queued already. */
  ghost predicate ExpiryFits(s: State, sec: nat)
    requires ListsFit(s)
  {
    var q := Accepted(s, sec, ExpiredBelow(s, sec, s.streamPool.hi));
    forall k :: 0 <= k < |q| ==> !Queued(s, q[k])
  }

  /** Looking for expired streams does not test the cleanup flag: the entries stay unique exactly
      when no expired stream that finds room is queued already. */
  lemma ExpiryKeepsOnceIff(s: State, sec: nat)
    requires QueuedOnce(s) && ListsFit(s)
    ensures QueuedOnce(FindExpired(s, sec)) <==> ExpiryFits(s, sec)
  {
    hide NoDup;
    hide Accepted;
    var slots := ExpiredBelow(s, sec, s.streamPool.hi);
    EnqueueAllAppends(s, sec, slots);
    AcceptedSlots(s, sec);
    var q := Accepted(s, sec, slots);
    if ToMain(sec) {
      OnceAfterAppend(s.main, s.wait, q, s.Live());
    } else {
      OnceAfterAppend(s.wait, s.main, q, s.Live());
    }
  }

  lemma AcceptedSlots(s: State, sec: nat)
    requires ListsFit(s)
    ensures var q := Accepted(s, sec, ExpiredBelow(s, sec, s.streamPool.hi));
            NoDup(q) && forall k :: 0 <= k < |q| ==> q[k] in s.Live()
  {
  }

  lemma OnceAfterAppend(q: seq<nat>, r: seq<nat>, more: seq<nat>, live: set<int>)
    requires Once(q, r, live) && NoDup(more) && forall k :: 0 <= k < |more| ==> more[k] in live
    ensures Once(q + more, r, live) <==> forall k :: 0 <= k < |more| ==> more[k] !in q && more[k] !in r
    ensures Once(r, q + more, live) <==> forall k :: 0 <= k < |more| ==> more[k] !in q && more[k] !in r
  {
    AppendKeepsNoDup(q, more);
    QueueSplit(q, more, q + more);
    hide NoDup;
  }

  lemma QueueSplit(q: seq<nat>, r: seq<nat>, all: seq<nat>)
    requires all == q + r
    ensures forall x :: x in all <==> x in q || x in r
    ensures forall k :: 0 <= k < |r| ==> r[k] in r && r[k] in all
    ensures forall x :: x in r ==> exists k :: 0 <= k < |r| && r[k] == x
  {
  }

  /** Why unique entries matter: a stream released twice leaves a wrong count behind. */
  lemma DoubleReleaseBreaksCounts(s: State, i: nat)
    requires RefsOk(s) && CountsAgree(s) && Framed(s.streamPool) && i in s.Live()
    ensures HasRefs(CleanOne(s, i), i) && !CountsAgree(CleanOne(CleanOne(s, i), i))
  {
    var t := CleanOne(s, i);
    CleanOneReleases(s, i);
    CleanOneFrame(s, i);
    ReleaseOfDead(t, i);
  }

  /** Releasing a stream that is not live still takes its endpoints off the counts. */
  lemma ReleaseOfDead(t: State, i: nat)
    requires CountsAgree(t) && Framed(t.streamPool) && i !in t.Live() && HasRefs(t, i)
    ensures !CountsAgree(CleanOne(t, i))
  {
    hide Free;
    hide KeyOf;
    CleanOneFrame(t, i);
    FreeKeepsFramed(t.streamPool, i);
    var u := CleanOne(t, i);
    assert u.Live() == t.Live();
    var l := t.streams[i].idxLeft;
    EndpointsCongruent(t.streams, u.streams, t.Live(), l, |t.streams|);
    assert t.addrs[l].nstreamsActive == ActiveAt(t, l) == ActiveAt(u, l);
    DecActiveMoves(t.addrs, l, t.streams[i].idxRight);
    ReleaseAddrsFrame(t.(streamMap := t.streamMap - {KeyOf(t, i)}), l, t.streams[i].idxRight);
    hide ReleaseAddrs;
    hide DecActive;
    assert u.addrs[l].nstreamsActive != t.addrs[l].nstreamsActive;
  }

  lemma DecActiveMoves(addrs: seq<AddrInfo>, l: nat, r: nat)
    requires l < |addrs| && r < |addrs| && addrs[l].nstreamsActive < 0x1_0000
    ensures DecActive(DecActive(addrs, l), r)[l].nstreamsActive != addrs[l].nstreamsActive
  {
  }

  // ----- freeing an address -----

  ghost predicate ProductionPools(s: State) {
    && Ok(s.lanPool) && s.lanPool.idxMin == 0 && s.lanPool.total == LAN_SIZE
    && Ok(s.wanPool) && s.wanPool.idxMin == LAN_SIZE && s.wanPool.total == NUM_ADDRS - LAN_SIZE
  }

  /** The two pools hand out disjoint slots although both windows are shifted by one. */
  lemma PoolsAreDisjoint(s: State)
    requires ProductionPools(s)
    ensures forall a :: a in s.lanPool.taken ==> 1 <= a <= 256
    ensures forall a :: a in s.wanPool.taken ==> 257 <= a <= 16384
    ensures s.lanPool.taken !! s.wanPool.taken
  {
    assert forall a :: a in s.lanPool.taken ==> 1 <= a <= 256;
    assert forall a :: a in s.wanPool.taken ==> 257 <= a <= 16384;
    assert forall a :: a in s.lanPool.taken ==> a !in s.wanPool.taken;
  }

  /** LAN slots end at 256 and WAN slots start after it, each inside its pool's window. */
  ghost predicate SplitPools(s: State) {
    && s.lanPool.total == LAN_SIZE && Framed(s.lanPool) && Framed(s.wanPool)
    && (forall a :: a in s.lanPool.taken ==> a <= LAN_SIZE)
    && (forall a :: a in s.wanPool.taken ==> a > LAN_SIZE)
  }

  lemma ProductionIsSplit(s: State)
    requires ProductionPools(s)
    ensures SplitPools(s)
  {
    PoolsAreDisjoint(s);
  }

  /** shm_addr_free takes the slot out of the pools exactly when it is not slot 256: that one belongs
      to the LAN pool's shifted window but is sent to the WAN pool, which ignores it. */
  lemma AddrFreeReleasesIff(s: State, a: nat)
    requires SplitPools(s)
    ensures AddrFree(s, a).LiveAddrs() == if a == LAN_SIZE then s.LiveAddrs() else s.LiveAddrs() - {a}
    ensures SplitPools(AddrFree(s, a))
  {
    FreeKeepsFramed(s.lanPool, a);
    FreeKeepsFramed(s.wanPool, a);
    hide Free;
    hide Framed;
    hide Cleared;
  }

  /** The lookup entry stays behind: the address is still found, in the same slot, which is then taken
      exactly when it was and is slot 256. */
  lemma AddrFreeLeavesEntry(s: State, ip: Addr, ts: Tval, isLan: Addr -> bool)
    requires SplitPools(s) && ip in s.addrMap
    ensures var a := s.addrMap[ip];
            var t := AddrFree(s, a);
            && AddrFor(t, ip, ts, isLan) == GotAddr(t, a)
            && (a in t.LiveAddrs() <==> a in s.LiveAddrs() && a == LAN_SIZE)
  {
    AddrFreeReleasesIff(s, s.addrMap[ip]);
  }
}
