// Which cleanup passes keep the bookkeeping: exactly those whose expired streams are not queued already.
module Sweeps {
  import opened Words
  import opened SlotPool
  import opened StreamKeys
  import opened Structs
  import opened Lifecycle
  import opened Capture
  import opened Tenancy

  // ----- a release loop over any list, repetitions included -----

  /** How many endpoints at address a the entries of the list have together. */
  function EndsSum(streams: seq<StreamInfo>, slots: seq<nat>, a: nat): nat {
    if slots == [] then 0
    else
      var i := slots[|slots| - 1];
      EndsSum(streams, slots[..|slots| - 1], a) + if i < |streams| then Ends(streams[i], a) else 0
  }

  ghost predicate AllLive(s: State, slots: seq<nat>) {
    forall k :: 0 <= k < |slots| ==> slots[k] in s.Live()
  }

  lemma U16Sub(x: int, y: int)
    ensures U16(U16(x) - y) == U16(x - y)
  {
    assert x == (x / 0x1_0000) * 0x1_0000 + U16(x);
    U16Multiple(U16(x) - y, x / 0x1_0000);
  }

  lemma U16Multiple(x: int, m: int)
    ensures U16(x + m * 0x1_0000) == U16(x)
  {
    assert (x + m * 0x1_0000) % 0x1_0000 == x % 0x1_0000;
  }

  /** One release takes its endpoints off the counts, live or not. */
  lemma CleanOneSubtracts(s: State, i: nat, a: nat, x: int)
    requires HasRefs(s, i) && a < |s.addrs| && s.addrs[a].nstreamsActive == U16(x)
    ensures CleanOne(s, i).addrs[a].nstreamsActive == U16(x - Ends(s.streams[i], a))
  {
    hide KeyOf;
    hide Free;
    hide U16;
    var l, r := s.streams[i].idxLeft, s.streams[i].idxRight;
    ReleaseAddrsFrame(s.(streamMap := s.streamMap - {KeyOf(s, i)}), l, r);
    hide ReleaseAddrs;
    U16Sub(x, 1);
    U16Sub(x - 1, 1);
  }

  lemma {:induction false} CleanAllSubtracts(s: State, slots: seq<nat>, a: nat)
    requires RefsOk(s) && AllLive(s, slots) && a < |s.addrs| && s.addrs[a].nstreamsActive < 0x1_0000
    ensures |CleanAll(s, slots).addrs| == |s.addrs|
    ensures CleanAll(s, slots).addrs[a].nstreamsActive == U16(s.addrs[a].nstreamsActive - EndsSum(s.streams, slots, a))
    decreases |slots|
  {
    hide CleanOne;
    CleanAllFrame(s, slots);
    if slots != [] {
      var n := |slots| - 1;
      var before := slots[..n];
      CleanAllSubtracts(s, before, a);
      CleanAllFrame(s, before);
      var t := CleanAll(s, before);
      assert slots[n] in s.Live() && HasRefs(t, slots[n]);
      CleanOneSubtracts(t, slots[n], a, s.addrs[a].nstreamsActive - EndsSum(s.streams, before, a));
    }
  }

  lemma {:induction false} CleanAllLive(s: State, slots: seq<nat>)
    requires RefsOk(s) && AllLive(s, slots) && Framed(s.streamPool)
    ensures CleanAll(s, slots).Live() == s.Live() - SetOf(slots) && Framed(CleanAll(s, slots).streamPool)
    decreases |slots|
  {
    if slots != [] {
      var n := |slots| - 1;
      var before := slots[..n];
      CleanAllLive(s, before);
      CleanAllFrame(s, before);
      var t := CleanAll(s, before);
      assert slots[n] in s.Live() && HasRefs(t, slots[n]);
      FreeKeepsFramed(t.streamPool, slots[n]);
      hide Free;
      hide KeyOf;
      ReleaseAddrsFrame(t.(streamMap := t.streamMap - {KeyOf(t, slots[n])}), t.streams[slots[n]].idxLeft, t.streams[slots[n]].idxRight);
      hide ReleaseAddrs;
      hide Framed;
      assert SetOf(slots) == SetOf(before) + {slots[n]};
    }
  }

  /** What the count at address a loses beyond the endpoints of the streams that go. */
  function Lost(streams: seq<StreamInfo>, live: set<int>, slots: seq<nat>, a: nat): int {
    Endpoints(streams, live - SetOf(slots), a, |streams|) + EndsSum(streams, slots, a) - Endpoints(streams, live, a, |streams|)
  }

  ghost predicate Inside(streams: seq<StreamInfo>, live: set<int>, slots: seq<nat>) {
    forall k :: 0 <= k < |slots| ==> slots[k] in live && slots[k] < |streams|
  }

  /** Only an entry that repeats an earlier one loses anything. */
  lemma LostStep(streams: seq<StreamInfo>, live: set<int>, slots: seq<nat>, a: nat)
    requires slots != [] && Inside(streams, live, slots)
    ensures var before, i := slots[..|slots| - 1], slots[|slots| - 1];
            Inside(streams, live, before) && i < |streams|
            && Lost(streams, live, slots, a) == Lost(streams, live, before, a) + if i in before then Ends(streams[i], a) else 0
  {
    hide Endpoints;
    var before, i := slots[..|slots| - 1], slots[|slots| - 1];
    assert SetOf(slots) == SetOf(before) + {i as int};
    if i in before {
      assert live - SetOf(slots) == live - SetOf(before);
    } else {
      assert live - SetOf(slots) == (live - SetOf(before)) - {i as int};
      EndpointsRemove(streams, live - SetOf(before), i, a, |streams|);
    }
  }

  lemma {:induction false} LostBounds(streams: seq<StreamInfo>, live: set<int>, slots: seq<nat>, a: nat)
    requires Inside(streams, live, slots)
    ensures 0 <= Lost(streams, live, slots, a) <= 2 * |slots|
    decreases |slots|
  {
    if slots == [] {
      assert live - SetOf(slots) == live;
    } else {
      hide Lost;
      LostStep(streams, live, slots, a);
      LostBounds(streams, live, slots[..|slots| - 1], a);
    }
  }

  /** Something is lost at the left address of a repeated stream. */
  lemma {:induction false} LostAtRepeated(streams: seq<StreamInfo>, live: set<int>, slots: seq<nat>, k: nat, m: nat)
    requires Inside(streams, live, slots) && k < m < |slots| && slots[k] == slots[m]
    ensures slots[k] < |streams| && Lost(streams, live, slots, streams[slots[k]].idxLeft) > 0
    decreases |slots|
  {
    hide Lost;
    var n := |slots| - 1;
    var before := slots[..n];
    var a := streams[slots[k]].idxLeft;
    LostStep(streams, live, slots, a);
    if m < n {
      LostAtRepeated(streams, live, before, k, m);
    } else {
      assert before[k] == slots[n];
      LostBounds(streams, live, before, a);
    }
  }

  /** A list with a repetition leaves a wrong count behind. */
  lemma RepetitionBreaksCounts(s: State, slots: seq<nat>)
    requires RefsOk(s) && CountsFor(s, s.Live()) && Framed(s.streamPool) && AllLive(s, slots)
    requires |slots| <= MAIN_ROOM && !NoDup(slots)
    ensures !CountsFor(CleanAll(s, slots), CleanAll(s, slots).Live())
  {
    hide CleanAll;
    hide EndsSum;
    hide Endpoints;
    var k, m :| 0 <= k < m < |slots| && slots[k] == slots[m];
    assert slots[k] in s.Live();
    var a := s.streams[slots[k]].idxLeft;
    var t := CleanAll(s, slots);
    CleanAllFrame(s, slots);
    CleanAllLive(s, slots);
    CleanAllSubtracts(s, slots, a);
    assert Inside(s.streams, s.Live(), slots);
    LostBounds(s.streams, s.Live(), slots, a);
    LostAtRepeated(s.streams, s.Live(), slots, k, m);
    EndpointsCongruent(s.streams, t.streams, t.Live(), a, |s.streams|);
  }

  // ----- a whole pass -----

  lemma NotOnce(q: seq<nat>, r: seq<nat>, live: set<int>)
    requires !Once(q, r, live) && forall x :: x in q || x in r ==> x in live
    ensures !NoDup(q) || !NoDup(r) || exists x :: x in q && x in r
  {
  }

  /** A pass whose expired streams do not fit breaks the invariant. */
  lemma MisfitBreaks(s: State, sec: nat)
    requires Inv(s) && PassRuns(s, sec) && !ExpiryFits(s, sec)
    ensures !Inv(Sweep(s, sec))
  {
    hide Linked;
    hide QueuedOnce;
    hide Once;
    hide PoolsOk;
    hide FindExpired;
    hide CleanAll;
    hide RefsOk;
    hide CountsFor;
    hide Framed;
    hide ExpiryFits;
    var f := FindExpired(s, sec);
    ExpiryKeepsOnceIff(s, sec);
    FindExpiredFrame(s, sec);
    MisfitQueues(s, sec);
    InvForRelease(s);
    SameForRelease(s, f);
    CleanAllLive(f, f.main);
    CleanAllFrame(f, f.main);
    BrokenAfter(f, CleanAll(f, f.main), Sweep(s, sec));
  }

  lemma InvForRelease(s: State)
    requires Inv(s)
    ensures RefsOk(s) && CountsFor(s, s.Live()) && Framed(s.streamPool)
  {
    hide KeyOf;
    hide MapAgrees;
    hide AddrEntries;
    hide QueueOk;
    hide ProductionPools;
    OkIsFramed(s.streamPool);
    hide Ok;
  }

  /** The release of a main list when list entries are not unique. */
  lemma BrokenAfter(f: State, u: State, t: State)
    requires RefsOk(f) && CountsFor(f, f.Live()) && Framed(f.streamPool) && AllLive(f, f.main) && |f.main| <= MAIN_ROOM
    requires u == CleanAll(f, f.main) && u.Live() == f.Live() - SetOf(f.main)
    requires t == u.(main := f.wait, wait := [], lastSec := t.lastSec)
    requires !QueuedOnce(f) && forall x :: x in f.main || x in f.wait ==> x in f.Live()
    ensures !Inv(t)
  {
    hide CleanAll;
    hide KeyOf;
    hide MapAgrees;
    hide AddrEntries;
    hide PoolsOk;
    hide RefsOk;
    hide Framed;
    hide NoDup;
    hide AllLive;
    NotOnce(f.main, f.wait, f.Live());
    if !NoDup(f.main) {
      RepetitionBreaksCounts(f, f.main);
      SameCounted(u, t);
    } else if NoDup(f.wait) {
      var x :| x in f.main && x in f.wait;
      assert x !in t.Live() && x in t.main;
    }
    hide CountsFor;
  }

  lemma SameCounted(u: State, t: State)
    requires t == u.(main := t.main, wait := t.wait, lastSec := t.lastSec)
    ensures CountsFor(t, t.Live()) <==> CountsFor(u, u.Live())
  {
  }

  lemma MisfitQueues(s: State, sec: nat)
    requires QueuedOnce(s) && ListsFit(s)
    ensures var f := FindExpired(s, sec);
            (forall x :: x in f.main || x in f.wait ==> x in f.Live()) && AllLive(f, f.main)
  {
    hide NoDup;
    EnqueueAllAppends(s, sec, ExpiredBelow(s, sec, s.streamPool.hi));
    AcceptedSlots(s, sec);
    hide Accepted;
    hide ExpiredBelow;
  }

  lemma SameForRelease(s: State, f: State)
    requires RefsOk(s) && CountsFor(s, s.Live()) && Framed(s.streamPool) && f == s.(main := f.main, wait := f.wait)
    ensures RefsOk(f) && CountsFor(f, f.Live()) && Framed(f.streamPool)
  {
  }

  /** A cleanup pass with anchored releases keeps the invariant exactly when no expired stream that it
      puts on a list is queued already. */
  lemma SweepKeepsInvIff(s: State, sec: nat)
    requires Inv(s) && PassRuns(s, sec)
    requires var f := FindExpired(s, sec); AllAnchored(f, f.main)
    ensures Inv(Sweep(s, sec)) <==> ExpiryFits(s, sec)
  {
    hide Linked;
    hide QueuedOnce;
    hide PoolsOk;
    hide ExpiryFits;
    hide AllAnchored;
    hide FindExpired;
    hide Sweep;
    if ExpiryFits(s, sec) {
      SweepKeepsInv(s, sec);
    } else {
      MisfitBreaks(s, sec);
    }
  }
}
