// The clock of the statistics engine: common/tval.c, statproc/statproc_sim.c,
// statproc/statproc_utils.c and the counter part of every_second and check_minute.
module StatClock {
  import opened Words
  import opened Structs

  /** A timestamp as pcap delivers it. */
  predicate Normal(t: Tval) {
    0 < t.sec < 0x1_0000_0000 && t.usec < 1_000_000
  }

  predicate NotBefore(prev: Tval, cur: Tval) {
    prev.sec < cur.sec || (prev.sec == cur.sec && prev.usec <= cur.usec)
  }

  /** tval_diff_ms, wrap-around and missing borrow included. */
  function DiffMs(prev: Tval, cur: Tval): (ms: nat) {
    var diff := U32((cur.sec - prev.sec) * 1000);
    if cur.usec < prev.usec
    then U32(diff + ((0xFFFF_FFFF + cur.usec) - prev.usec) / 1000)
    else U32(diff + (cur.usec - prev.usec) / 1000)
  }

  // The longest gap in seconds that cannot be lost to wrap-around.
  const MAX_GAP := 4_290_672

  /** A whole second counts as elapsed exactly when the seconds field has advanced. */
  lemma ElapsedIffSecondAdvanced(prev: Tval, cur: Tval)
    requires Normal(prev) && Normal(cur) && NotBefore(prev, cur) && cur.sec - prev.sec <= MAX_GAP
    ensures DiffMs(prev, cur) >= 1000 <==> cur.sec > prev.sec
  {
    var d := cur.sec - prev.sec;
    assert U32(d * 1000) == d * 1000;
    if cur.usec < prev.usec {
      assert 4_293_967 <= ((0xFFFF_FFFF + cur.usec) - prev.usec) / 1000 <= 4_294_967;
    } else {
      assert (cur.usec - prev.usec) / 1000 < 1000;
    }
  }

  /** One second more and a long gap can pass unnoticed. */
  lemma LongGapIsLost()
    ensures DiffMs(Tval(1, 1), Tval(1 + MAX_GAP + 1, 0)) < 1000
  {
  }

  /** u32diff: growth of a 32-bit counter, one short when it wrapped. */
  function U32Diff(prev: int, cur: int): (d: nat) {
    if cur >= prev then cur - prev else U32(0xFFFF_FFFF + cur - prev)
  }

  /** For a true growth under 2^32 the difference is exact, minus one if the counter wrapped. */
  lemma DiffIsGrowthLessWrap(before: nat, after: nat)
    requires before <= after < before + 0x1_0000_0000
    ensures U32Diff(U32(before), U32(after)) == after - before - if U32(after) < U32(before) then 1 else 0
  {
    assert before == (before / 0x1_0000_0000) * 0x1_0000_0000 + U32(before);
    assert after == (after / 0x1_0000_0000) * 0x1_0000_0000 + U32(after);
  }

  function Flow32(f: Flow): Flow {
    Flow(U32(f.packets), U32(f.bytes))
  }

  function FlowDiff(prev: Flow, cur: Flow): Flow {
    Flow(U32Diff(prev.packets, cur.packets), U32Diff(prev.bytes, cur.bytes))
  }

  /** A row of 60 seconds as a report prints it, with the places written since the last report. */
  datatype Printed = Printed(first: nat, upto: nat, row: seq<Flow>)

  /** The statistics of one flow type, the total or any other: lastSec is the simulation's last_sec, the
      rest are the statics of the handlers.  row is the type's row of sec_flows, written from place
      first on.  reports collects the growth due at each report, rows the printed rows. */
  datatype Clock = Clock(
    lastSec: Tval, initialized: bool, tlastMin: nat, secI: nat, last: Flow, lastMin: Flow, reports: seq<Flow>,
    first: nat, row: seq<Flow>, rows: seq<Printed>)

  function Start(): Clock {
    Clock(Tval(0, 0), false, 0, 0, Flow(0, 0), Flow(0, 0), [], 0, seq(60, i => Flow(0, 0)), [])
  }

  /** check_minute, as far as the clock goes. */
  function CheckMinute(s: Clock, sec: nat): Clock {
    s.(reports := s.reports + [s.lastMin], rows := s.rows + [Printed(s.first, s.secI, s.row)],
       lastMin := Flow(0, 0), tlastMin := (sec / 60) * 60, secI := sec % 60, first := sec % 60)
  }

  function EverySecond(s: Clock, ts: Tval, total: Flow): Clock
    requires Flow32(total) == total && Flow32(s.last) == s.last
  {
    if !s.initialized then
      s.(initialized := true, tlastMin := (ts.sec / 60) * 60, secI := ts.sec % 60, first := ts.sec % 60, last := total)
    else
      var d := FlowDiff(s.last, total);
      var u := s.(row := if s.secI < |s.row| then s.row[s.secI := d] else s.row,
                  lastMin := Flow(s.lastMin.packets + d.packets, s.lastMin.bytes + d.bytes),
                  secI := s.secI + 1, last := total);
      if U32(ts.sec - u.tlastMin) >= 60 then CheckMinute(u, ts.sec) else u
  }

  /** Whether the packet at ts makes the clock fire. */
  predicate Fires(s: Clock, ts: Tval) {
    s.lastSec.sec != 0 && DiffMs(s.lastSec, ts) >= 1000
  }

  /** The assert in every_second: at most 60 seconds were recorded. */
  predicate AssertHolds(s: Clock, ts: Tval) {
    Fires(s, ts) && s.initialized ==> s.secI + 1 <= 60
  }

  function BeforePacket(s: Clock, ts: Tval, total: Flow): Clock
    requires Flow32(total) == total && Flow32(s.last) == s.last
  {
    if s.lastSec.sec == 0 then s.(lastSec := ts)
    else if Fires(s, ts) then EverySecond(s, ts, total).(lastSec := ts)
    else s
  }

  // ----- every run -----

  /** A packet: its time and the true totals, never wrapped, counted before it. */
  datatype Event = Event(ts: Tval, total: Flow)

  /** Packet times do not go back and never jump further than the clock can see. */
  ghost predicate Steady(es: seq<Event>) {
    && (forall i :: 0 <= i < |es| ==> Normal(es[i].ts))
    && (forall i :: 0 < i < |es| ==>
          NotBefore(es[i - 1].ts, es[i].ts) && es[i].ts.sec - es[i - 1].ts.sec <= MAX_GAP)
  }

  function Run(es: seq<Event>): (s: Clock)
    ensures Flow32(s.last) == s.last
  {
    if es == [] then Start()
    else BeforePacket(Run(es[..|es| - 1]), es[|es| - 1].ts, Flow32(es[|es| - 1].total))
  }

  /** The clock stands at the second of the last packet, and sec_i at most at the seconds since
      the minute began. */
  ghost predicate Clocked(s: Clock, now: Tval) {
    && s.lastSec.sec == now.sec && s.lastSec.usec <= now.usec
    && (s.initialized ==> s.tlastMin <= now.sec < s.tlastMin + 60 && s.secI <= now.sec - s.tlastMin)
  }

  lemma StepKeepsClocked(s: Clock, now: Tval, e: Event)
    requires Clocked(s, now) && Flow32(s.last) == s.last
    requires Normal(now) && Normal(e.ts) && NotBefore(now, e.ts) && e.ts.sec - now.sec <= MAX_GAP
    ensures Fires(s, e.ts) <==> e.ts.sec > now.sec
    ensures AssertHolds(s, e.ts)
    ensures Clocked(BeforePacket(s, e.ts, Flow32(e.total)), e.ts)
  {
    ElapsedIffSecondAdvanced(s.lastSec, e.ts);
    hide DiffMs;
    hide FlowDiff;
    assert (e.ts.sec / 60) * 60 <= e.ts.sec < (e.ts.sec / 60) * 60 + 60;
    assert e.ts.sec % 60 == e.ts.sec - (e.ts.sec / 60) * 60;
  }

  lemma {:induction false} RunClocked(es: seq<Event>)
    requires Steady(es) && es != []
    ensures Clocked(Run(es), es[|es| - 1].ts)
    decreases |es|
  {
    var n := |es| - 1;
    var before := es[..n];
    if n == 0 {
      assert Run(before) == Start();
    } else {
      RunClocked(before);
      assert before[n - 1] == es[n - 1];
      StepKeepsClocked(Run(before), es[n - 1].ts, es[n]);
    }
  }

  /** On every run the clock fires exactly when the second advances, so the assert on sec_i
      never fails, and right after a packet the clock stands inside the current minute. */
  lemma TicksAreSeconds(es: seq<Event>, k: nat)
    requires Steady(es) && k < |es|
    ensures Fires(Run(es[..k]), es[k].ts) <==> k > 0 && es[k].ts.sec > es[k - 1].ts.sec
    ensures AssertHolds(Run(es[..k]), es[k].ts)
  {
    if k > 0 {
      RunClocked(es[..k]);
      StepKeepsClocked(Run(es[..k]), es[k - 1].ts, es[k]);
    }
  }

  /** sim_after_packet repeats the call with the same time: it never fires. */
  lemma AfterPacketIsIdle(es: seq<Event>, total: Flow)
    requires Steady(es) && es != [] && Flow32(total) == total
    ensures BeforePacket(Run(es), es[|es| - 1].ts, total) == Run(es)
  {
    RunClocked(es);
    var now := es[|es| - 1].ts;
    assert DiffMs(Run(es).lastSec, now) == (now.usec - Run(es).lastSec.usec) / 1000 < 1000;
  }

  // ----- minutes and places, from packet times only -----

  /** Whether the clock has started, the place in the minute that the next second goes to, and the number
      of reports made. */
  datatype Dial = Dial(started: bool, place: nat, reports: nat)

  /** The first new second starts the clock.  Then a second of a new minute makes a report.  After either
      the place is the second in the minute; any other new second moves it by one. */
  function DialAfter(times: seq<nat>): Dial {
    if |times| <= 1 then Dial(false, 0, 0)
    else
      var d, last, now := DialAfter(times[..|times| - 1]), times[|times| - 2], times[|times| - 1];
      if now <= last then d
      else if !d.started then Dial(true, now % 60, d.reports)
      else if now / 60 > last / 60 then Dial(true, now % 60, d.reports + 1)
      else Dial(true, d.place + 1, d.reports)
  }

  function Times(es: seq<Event>): (r: seq<nat>)
    ensures |r| == |es| && forall i :: 0 <= i < |es| ==> r[i] == es[i].ts.sec
  {
    seq(|es|, i requires 0 <= i < |es| => es[i].ts.sec)
  }

  /** The clock shows the minute of the second sec. */
  ghost predicate ShowsDial(s: Clock, d: Dial, sec: nat) {
    && s.initialized == d.started && |s.reports| == d.reports
    && (d.started ==> s.secI == d.place && s.tlastMin == sec / 60 * 60)
  }

  lemma StepFollowsDial(s: Clock, now: Tval, e: Event, times: seq<nat>)
    requires Clocked(s, now) && Flow32(s.last) == s.last
    requires Normal(now) && Normal(e.ts) && NotBefore(now, e.ts) && e.ts.sec - now.sec <= MAX_GAP
    requires |times| >= 2 && times[|times| - 2] == now.sec && times[|times| - 1] == e.ts.sec
    requires ShowsDial(s, DialAfter(times[..|times| - 1]), now.sec)
    ensures ShowsDial(BeforePacket(s, e.ts, Flow32(e.total)), DialAfter(times), e.ts.sec)
  {
    StepKeepsClocked(s, now, e);
    hide DiffMs;
    hide FlowDiff;
    assert now.sec / 60 * 60 <= now.sec < now.sec / 60 * 60 + 60;
    assert e.ts.sec / 60 * 60 <= e.ts.sec < e.ts.sec / 60 * 60 + 60;
  }

  /** On every steady run the minute begins at a multiple of 60 seconds, a report is made exactly at the
      first packet of a new minute once the clock has started, and the place in the minute is the second
      right after that and one more at each later new second. */
  lemma {:induction false} RunFollowsDial(es: seq<Event>)
    requires Steady(es) && es != []
    ensures ShowsDial(Run(es), DialAfter(Times(es)), es[|es| - 1].ts.sec)
    decreases |es|
  {
    var n := |es| - 1;
    var before := es[..n];
    if n == 0 {
      assert Run(before) == Start();
    } else {
      RunFollowsDial(before);
      RunClocked(before);
      assert before[n - 1] == es[n - 1];
      assert Times(es)[..n] == Times(before);
      hide ShowsDial;
      hide Clocked;
      StepFollowsDial(Run(before), es[n - 1].ts, es[n], Times(es));
    }
  }

  // ----- what the minute totals mean -----

  /** The true totals at the last tick and at the last report (or the start), how often each
      32-bit counter wrapped from tick to tick since then, and what was due for report. */
  datatype Ledger = Ledger(tick: Flow, base: Flow, wraps: Flow, reports: seq<Flow>)

  function Wrapped(before: int, after: int): nat {
    if U32(after) < U32(before) then 1 else 0
  }

  /** The growth since the last report, less the number of wraps. */
  function Due(l: Ledger): Flow {
    Flow(l.tick.packets - l.base.packets - l.wraps.packets, l.tick.bytes - l.base.bytes - l.wraps.bytes)
  }

  function LedgerStep(s: Clock, l: Ledger, e: Event): Ledger {
    if !Fires(s, e.ts) then l
    else if !s.initialized then Ledger(e.total, e.total, Flow(0, 0), l.reports)
    else
      var u := l.(tick := e.total,
                  wraps := Flow(l.wraps.packets + Wrapped(l.tick.packets, e.total.packets),
                                l.wraps.bytes + Wrapped(l.tick.bytes, e.total.bytes)));
      if U32(e.ts.sec - s.tlastMin) >= 60
      then Ledger(e.total, e.total, Flow(0, 0), l.reports + [Due(u)])
      else u
  }

  function RunLedger(es: seq<Event>): Ledger {
    if es == [] then Ledger(Flow(0, 0), Flow(0, 0), Flow(0, 0), [])
    else LedgerStep(Run(es[..|es| - 1]), RunLedger(es[..|es| - 1]), es[|es| - 1])
  }

  predicate GrowsBelowWord(before: Flow, after: Flow) {
    && 0 <= before.packets <= after.packets < before.packets + 0x1_0000_0000
    && 0 <= before.bytes <= after.bytes < before.bytes + 0x1_0000_0000
  }

  /** Both totals grow by less than 2^32 from one tick to the next. */
  ghost predicate SlowEnough(es: seq<Event>) {
    forall k :: 0 <= k < |es| ==>
      if Run(es[..k]).initialized then GrowsBelowWord(RunLedger(es[..k]).tick, es[k].total)
      else es[k].total.packets >= 0 && es[k].total.bytes >= 0
  }

  ghost predicate Balanced(s: Clock, l: Ledger) {
    && s.reports == l.reports
    && (s.initialized ==> s.last == Flow32(l.tick) && s.lastMin == Due(l))
    && (!s.initialized ==> s.lastMin == Flow(0, 0))
  }

  lemma StepKeepsBalance(s: Clock, l: Ledger, e: Event)
    requires Balanced(s, l) && Flow32(s.last) == s.last
    requires s.initialized ==> GrowsBelowWord(l.tick, e.total)
    requires e.total.packets >= 0 && e.total.bytes >= 0
    ensures Balanced(BeforePacket(s, e.ts, Flow32(e.total)), LedgerStep(s, l, e))
  {
    hide DiffMs;
    if s.initialized {
      DiffIsGrowthLessWrap(l.tick.packets, e.total.packets);
      DiffIsGrowthLessWrap(l.tick.bytes, e.total.bytes);
    }
  }

  /** Every minute report prints, for packets and for bytes, the true growth since the previous
      report less the number of ticks at which that 32-bit counter wrapped. */
  lemma {:induction false} ReportsAreGrowthLessWraps(es: seq<Event>)
    requires SlowEnough(es)
    ensures Balanced(Run(es), RunLedger(es))
    decreases |es|
  {
    hide BeforePacket;
    hide LedgerStep;
    hide Balanced;
    if es == [] {
      StartBalanced();
    } else {
      var n := |es| - 1;
      var before := es[..n];
      SlowBefore(es);
      ReportsAreGrowthLessWraps(before);
      assert es[..n] == before && (if Run(es[..n]).initialized then GrowsBelowWord(RunLedger(es[..n]).tick, es[n].total)
                                   else es[n].total.packets >= 0 && es[n].total.bytes >= 0);
      StepKeepsBalance(Run(before), RunLedger(before), es[n]);
    }
  }

  lemma StartBalanced()
    ensures Balanced(Run([]), RunLedger([]))
  {
  }

  lemma SlowBefore(es: seq<Event>)
    requires SlowEnough(es) && es != []
    ensures SlowEnough(es[..|es| - 1])
  {
    hide Run;
    hide RunLedger;
    hide GrowsBelowWord;
    var before := es[..|es| - 1];
    forall k | 0 <= k < |before|
      ensures if Run(before[..k]).initialized then GrowsBelowWord(RunLedger(before[..k]).tick, before[k].total)
              else before[k].total.packets >= 0 && before[k].total.bytes >= 0
    {
      assert before[..k] == es[..k];
    }
  }

  // ----- the rows of seconds -----

  /** The sum of the places from first up to upto. */
  function RowSum(row: seq<Flow>, first: nat, upto: nat): Flow
    requires upto <= |row|
    decreases upto
  {
    if upto <= first then Flow(0, 0)
    else
      var f := RowSum(row, first, upto - 1);
      Flow(f.packets + row[upto - 1].packets, f.bytes + row[upto - 1].bytes)
  }

  lemma {:induction false} RowSumBefore(row: seq<Flow>, first: nat, upto: nat, k: nat, d: Flow)
    requires upto <= k < |row|
    ensures RowSum(row[k := d], first, upto) == RowSum(row, first, upto)
    decreases upto
  {
    if upto > first {
      RowSumBefore(row, first, upto - 1, k, d);
    }
  }

  ghost predicate RowsAddUp(s: Clock) {
    && |s.row| == 60 && |s.rows| == |s.reports|
    && (forall k :: 0 <= k < |s.rows| ==>
          && s.rows[k].first <= s.rows[k].upto <= |s.rows[k].row| == 60
          && RowSum(s.rows[k].row, s.rows[k].first, s.rows[k].upto) == s.reports[k])
    && (s.initialized ==> s.first <= s.secI <= 60 && RowSum(s.row, s.first, s.secI) == s.lastMin)
    && (!s.initialized ==> s.lastMin == Flow(0, 0))
  }

  lemma StepKeepsRows(s: Clock, e: Event)
    requires RowsAddUp(s) && AssertHolds(s, e.ts) && Flow32(s.last) == s.last
    ensures RowsAddUp(BeforePacket(s, e.ts, Flow32(e.total)))
  {
    hide DiffMs;
    hide FlowDiff;
    if Fires(s, e.ts) && s.initialized {
      var d := FlowDiff(s.last, Flow32(e.total));
      RowSumBefore(s.row, s.first, s.secI, s.secI, d);
      var row := s.row[s.secI := d];
      assert RowSum(row, s.first, s.secI + 1)
          == Flow(s.lastMin.packets + d.packets, s.lastMin.bytes + d.bytes);
    }
  }

  /** On every steady run the places of a printed row that were written since the previous report add up
      to the growth due at that report, for each flow type. */
  lemma {:induction false} PrintedRowsAddUp(es: seq<Event>)
    requires Steady(es)
    ensures RowsAddUp(Run(es))
    decreases |es|
  {
    if es != [] {
      hide RowsAddUp;
      hide AssertHolds;
      var n := |es| - 1;
      var before := es[..n];
      PrintedRowsAddUp(before);
      TicksAreSeconds(es, n);
      StepKeepsRows(Run(before), es[n]);
    } else {
      assert RowsAddUp(Start());
    }
  }

  // ----- the class -----

  const FLOW_TYPES: nat := 6

  /** The statics of statproc_sim.c and statproc_handlers.c that drive the minute reports.  views holds,
      for each flow type, what the process knows about it. */
  class StatProcess {
    var lastSec: Tval
    var initialized: bool
    var tlastMin: nat
    var secI: nat
    var lastMin: Flow
    const last: array<Flow>
    const secFlows: array2<Flow>
    ghost var views: seq<Clock>

    ghost predicate Sizes() {
      last.Length == FLOW_TYPES == secFlows.Length0 && secFlows.Length1 == 60
    }

    /** What view v of type k says is what the fields hold. */
    ghost predicate Shows(v: Clock, k: nat)
      requires Sizes() && k < FLOW_TYPES
      reads this, last, secFlows
    {
      && v.lastSec == lastSec && v.initialized == initialized && v.tlastMin == tlastMin && v.secI == secI
      && v.last == last[k] && Flow32(v.last) == v.last
      && |v.row| == 60 && (forall j :: 0 <= j < 60 ==> v.row[j] == secFlows[k, j])
      && (k == 5 ==> v.lastMin == lastMin)
    }

    ghost predicate Valid()
      reads this, last, secFlows
    {
      Sizes() && |views| == FLOW_TYPES && forall k :: 0 <= k < FLOW_TYPES ==> Shows(views[k], k)
    }

    constructor ()
      ensures Valid() && fresh(last) && fresh(secFlows) && forall k :: 0 <= k < FLOW_TYPES ==> views[k] == Start()
    {
      lastSec, initialized, tlastMin, secI := Tval(0, 0), false, 0, 0;
      lastMin := Flow(0, 0);
      last := new Flow[FLOW_TYPES](_ => Flow(0, 0));
      secFlows := new Flow[FLOW_TYPES, 60]((_, _) => Flow(0, 0));
      views := seq(FLOW_TYPES, k => Start());
    }

    /** fault: the assert on sec_i fails; the row has spare places past its 60 seconds. */
    method SimBeforePacket(ts: Tval, flows: seq<Flow>) returns (fault: bool)
      requires Valid() && |flows| == FLOW_TYPES && forall k :: 0 <= k < FLOW_TYPES ==> Flow32(flows[k]) == flows[k]
      modifies this, last, secFlows
      ensures Valid()
      ensures fault <==> !AssertHolds(old(views[0]), ts)
      ensures !fault ==> forall k :: 0 <= k < FLOW_TYPES ==> views[k] == BeforePacket(old(views[k]), ts, flows[k])
    {
      hide EverySecond;
      hide DiffMs;
      hide Flow32;
      assert Shows(views[0], 0);
      fault := false;
      var fires := false;
      if lastSec.sec != 0 {
        var ms := DiffMs(lastSec, ts);
        fires := ms >= 1000;
        if fires {
          fault := Tick(ts, flows);
        }
      }
      if lastSec.sec == 0 || (fires && !fault) {
        SetLastSec(ts);
      }
    }

    method SetLastSec(ts: Tval)
      requires Valid()
      modifies this`lastSec, this`views
      ensures Valid() && forall k :: 0 <= k < FLOW_TYPES ==> views[k] == old(views[k]).(lastSec := ts)
    {
      ghost var before := views;
      assert forall k :: 0 <= k < FLOW_TYPES ==> Shows(before[k], k);
      lastSec := ts;
      views := seq(FLOW_TYPES, k requires 0 <= k < FLOW_TYPES => before[k].(lastSec := ts));
    }

    method Tick(ts: Tval, flows: seq<Flow>) returns (fault: bool)
      requires Valid() && |flows| == FLOW_TYPES && forall k :: 0 <= k < FLOW_TYPES ==> Flow32(flows[k]) == flows[k]
      modifies this, last, secFlows
      ensures Valid() && lastSec == old(lastSec)
      ensures fault <==> old(initialized) && old(secI) >= 60
      ensures !fault ==> forall k :: 0 <= k < FLOW_TYPES ==> views[k] == EverySecond(old(views[k]), ts, flows[k])
    {
      hide Flow32;
      hide FlowDiff;
      ghost var before := views;
      assert forall k :: 0 <= k < FLOW_TYPES ==> Shows(before[k], k);
      fault := initialized && secI >= 60;
      if fault {
        return;
      }
      if !initialized {
        initialized := true;
        tlastMin := (ts.sec / 60) * 60;
        secI := ts.sec % 60;
        Snapshot(flows);
      } else {
        TakeDiffs(flows);
        secI := secI + 1;
        Snapshot(flows);
        if U32(ts.sec - tlastMin) >= 60 {
          lastMin := Flow(0, 0);
          tlastMin := (ts.sec / 60) * 60;
          secI := ts.sec % 60;
        }
      }
      views := seq(FLOW_TYPES, k requires 0 <= k < FLOW_TYPES => EverySecond(before[k], ts, flows[k]));
    }

    /** The loop over the flow types: the second's growth goes to the row, that of the total to the
        minute as well. */
    method TakeDiffs(flows: seq<Flow>)
      requires Sizes() && |flows| == FLOW_TYPES && secI < 60
      modifies secFlows, this`lastMin
      ensures forall k, j :: 0 <= k < FLOW_TYPES && 0 <= j < 60 ==>
                secFlows[k, j] == if j == secI then FlowDiff(last[k], flows[k]) else old(secFlows[k, j])
      ensures var d := FlowDiff(last[5], flows[5]);
              lastMin == Flow(old(lastMin).packets + d.packets, old(lastMin).bytes + d.bytes)
    {
      hide FlowDiff;
      for i := 0 to FLOW_TYPES
        invariant forall k, j :: 0 <= k < FLOW_TYPES && 0 <= j < 60 ==>
                    secFlows[k, j] == if k < i && j == secI then FlowDiff(last[k], flows[k]) else old(secFlows[k, j])
        invariant i <= 5 ==> lastMin == old(lastMin)
        invariant i == 6 ==> var d := FlowDiff(last[5], flows[5]);
                             lastMin == Flow(old(lastMin).packets + d.packets, old(lastMin).bytes + d.bytes)
      {
        secFlows[i, secI] := FlowDiff(last[i], flows[i]);
        if i == 5 {
          lastMin := Flow(lastMin.packets + secFlows[i, secI].packets, lastMin.bytes + secFlows[i, secI].bytes);
        }
      }
    }

    /** The memcpy of the current counters. */
    method Snapshot(flows: seq<Flow>)
      requires Sizes() && |flows| == FLOW_TYPES
      modifies last
      ensures forall k :: 0 <= k < FLOW_TYPES ==> last[k] == flows[k]
    {
      forall k | 0 <= k < FLOW_TYPES {
        last[k] := flows[k];
      }
    }
  }
}
