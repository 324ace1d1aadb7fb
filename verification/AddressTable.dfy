// Address lookup and allocate-on-miss of common/shmdata.c and capture/main.c, on runs in which
// no address is freed.
module AddressTable {
  import opened SlotPool
  import opened StreamKeys
  import opened Structs
  import opened Lifecycle
  import T = Tenancy

  datatype Request = Request(ip: Addr, ts: Tval)

  datatype Outcome = Stopped | Running(state: State)

  function Step(s: State, q: Request, isLan: Addr -> bool): Outcome {
    match AddrFor(s, q.ip, q.ts, isLan)
    case GotAddr(t, _) => Running(t)
    case NoAddr => Running(s)
    case AddrFault => Stopped
  }

  /** The tables after a sequence of lookups, each allocating on a miss. */
  function RunLookups(qs: seq<Request>, isLan: Addr -> bool): Outcome {
    if qs == [] then Running(InitialState())
    else match RunLookups(qs[..|qs| - 1], isLan)
         case Stopped => Stopped
         case Running(s) => Step(s, qs[|qs| - 1], isLan)
  }

  function PoolOf(s: State, lan: bool): Pool {
    if lan then s.lanPool else s.wanPool
  }

  /** An entry leads to a slot of the pool its address belongs to, which holds that address. */
  ghost predicate EntryOk(s: State, ip: Addr, isLan: Addr -> bool)
    requires ip in s.addrMap
  {
    var a := s.addrMap[ip];
    && a < |s.addrs| && a in PoolOf(s, isLan(ip)).taken
    && s.addrs[a].addrOffset == ip && s.addrs[a].internal == isLan(ip)
  }

  ghost predicate TableOk(s: State, isLan: Addr -> bool) {
    && ProductionPools(s)
    && (forall ip :: ip in s.addrMap ==> EntryOk(s, ip, isLan))
    && (forall a :: a in s.LiveAddrs() ==>
          0 <= a < |s.addrs| && s.addrs[a].addrOffset in s.addrMap && s.addrMap[s.addrs[a].addrOffset] == a)
  }

  predicate Full(s: State, lan: bool) {
    PoolOf(s, lan).num >= PoolOf(s, lan).total
  }

  lemma AllocKeepsTable(s: State, ip: Addr, ts: Tval, isLan: Addr -> bool)
    requires TableOk(s, isLan) && ip !in s.addrMap
    ensures var r := AddrAlloc(s, ip, ts, isLan(ip));
            && (r.GotAddr? ==> TableOk(r.state, isLan) && r.state.addrMap.Keys == s.addrMap.Keys + {ip})
            && (r.GotAddr? ==> !Full(s, isLan(ip)))
            && (Full(s, isLan(ip)) ==> r == NoAddr)
            && (r.NoAddr? ==> Full(s, isLan(ip)))
  {
    hide Alloc;
    hide Ok;
    hide EntryOk;
    var lan := isLan(ip);
    var r := AddrAlloc(s, ip, ts, lan);
    RoomIsRoom(PoolOf(s, lan));
    if r.GotAddr? {
      T.AddrAllocShape(s, ip, ts, lan);
      EntriesStay(s, r.state, ip, r.idx, isLan);
    }
  }

  lemma RoomIsRoom(p: Pool)
    requires Ok(p)
    ensures Alloc(p).NoRoom? <==> p.num >= p.total
    ensures Alloc(p).Handed? ==> Alloc(p).pool.taken == p.taken + {Alloc(p).idx}
  {
    AllocOk(p);
  }

  lemma EntriesStay(s: State, t: State, ip: Addr, a: nat, isLan: Addr -> bool)
    requires TableOk(s, isLan) && ProductionPools(t) && ip !in s.addrMap && t.addrMap == s.addrMap[ip := a]
    requires a !in s.LiveAddrs() && t.LiveAddrs() == s.LiveAddrs() + {a} && a in PoolOf(t, isLan(ip)).taken
    requires s.lanPool.taken <= t.lanPool.taken && s.wanPool.taken <= t.wanPool.taken
    requires a < |s.addrs| == |t.addrs| && forall b :: 0 <= b < |s.addrs| && b != a ==> t.addrs[b] == s.addrs[b]
    requires t.addrs[a].addrOffset == ip && t.addrs[a].internal == isLan(ip)
    ensures TableOk(t, isLan)
  {
    hide ProductionPools;
  }

  lemma StepKeepsTable(s: State, q: Request, isLan: Addr -> bool)
    requires TableOk(s, isLan)
    ensures var o := Step(s, q, isLan);
            o.Running? ==>
              && TableOk(o.state, isLan)
              && o.state.addrMap.Keys == s.addrMap.Keys + if Full(s, isLan(q.ip)) then {} else {q.ip}
  {
    if q.ip !in s.addrMap {
      AllocKeepsTable(s, q.ip, q.ts, isLan);
      hide AddrAlloc;
      hide TableOk;
      hide Full;
    }
  }

  /** Request k asked for ip while the pool it belongs to had a free slot. */
  ghost predicate Served(qs: seq<Request>, k: nat, ip: Addr, isLan: Addr -> bool) {
    && k < |qs| && qs[k].ip == ip
    && RunLookups(qs[..k], isLan).Running? && !Full(RunLookups(qs[..k], isLan).state, isLan(ip))
  }

  ghost predicate WasServed(qs: seq<Request>, ip: Addr, isLan: Addr -> bool) {
    exists k: nat :: Served(qs, k, ip, isLan)
  }

  lemma InitialTable(isLan: Addr -> bool)
    ensures TableOk(InitialState(), isLan)
  {
    assert InitialState().LiveAddrs() == {};
  }

  lemma {:induction false} RunKeepsTable(qs: seq<Request>, isLan: Addr -> bool)
    ensures RunLookups(qs, isLan).Running? ==> TableOk(RunLookups(qs, isLan).state, isLan)
    decreases |qs|
  {
    if qs == [] {
      InitialTable(isLan);
    } else {
      hide TableOk;
      hide Step;
      hide InitialState;
      RunKeepsTable(qs[..|qs| - 1], isLan);
      var o := RunLookups(qs[..|qs| - 1], isLan);
      if o.Running? {
        StepKeepsTable(o.state, qs[|qs| - 1], isLan);
      }
    }
  }

  /** A lookup finds an address exactly when it was asked for while its pool had room. */
  lemma {:induction false} FoundIffServed(qs: seq<Request>, isLan: Addr -> bool, ip: Addr)
    requires RunLookups(qs, isLan).Running?
    ensures ip in RunLookups(qs, isLan).state.addrMap <==> WasServed(qs, ip, isLan)
    decreases |qs|
  {
    if qs != [] {
      var n := |qs| - 1;
      var before := qs[..n];
      FoundIffServed(before, isLan, ip);
      RunKeepsTable(before, isLan);
      var s := RunLookups(before, isLan).state;
      StepKeepsTable(s, qs[n], isLan);
      ServedStep(qs, isLan, ip);
    }
  }

  lemma ServedStep(qs: seq<Request>, isLan: Addr -> bool, ip: Addr)
    requires qs != [] && RunLookups(qs[..|qs| - 1], isLan).Running?
    ensures WasServed(qs, ip, isLan) <==> WasServed(qs[..|qs| - 1], ip, isLan) || Served(qs, |qs| - 1, ip, isLan)
  {
    hide RunLookups;
    hide Full;
    var n := |qs| - 1;
    var before := qs[..n];
    forall k: nat | k < n
      ensures Served(qs, k, ip, isLan) <==> Served(before, k, ip, isLan)
    {
      assert before[..k] == qs[..k];
    }
    if k: nat :| Served(before, k, ip, isLan) {
      assert Served(qs, k, ip, isLan);
    }
    if k: nat :| Served(qs, k, ip, isLan) && k < n {
      assert Served(before, k, ip, isLan);
    }
  }

  /** On every run: a found address leads to a taken slot that holds it, in the pool its internal
      flag tells, and distinct addresses lead to distinct slots. */
  lemma LookupLeadsToItsSlot(qs: seq<Request>, isLan: Addr -> bool, ip: Addr, other: Addr)
    requires RunLookups(qs, isLan).Running?
    ensures var s := RunLookups(qs, isLan).state;
            && (ip in s.addrMap ==> EntryOk(s, ip, isLan))
            && (ip in s.addrMap && other in s.addrMap && ip != other ==> s.addrMap[ip] != s.addrMap[other])
  {
    RunKeepsTable(qs, isLan);
  }
}
