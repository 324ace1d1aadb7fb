// The protocol part of the minute report: _process_protocols of statproc/statproc_handlers.c.
module Protocols {
  import opened Structs
  import opened StatClock
  import opened Deltas
  import opened Ranking
  import opened TopLists
  import opened MinuteReport

  function PacketCounts(protos: seq<Flow>): seq<int> {
    seq(|protos|, i requires 0 <= i < |protos| => protos[i].packets)
  }

  /** The protocols whose packet counter has moved since the last report. */
  function Moved(last: seq<Flow>, cur: seq<Flow>): (r: seq<bool>)
    requires |last| == |cur|
    ensures |r| == |cur| && forall i :: 0 <= i < |r| ==> r[i] == !Skipped(last[i], cur[i])
  {
    seq(|cur|, i requires 0 <= i < |cur| => !Skipped(last[i], cur[i]))
  }

  /** What the working copy holds after the report: the delta, or the untouched counters. */
  function Replaced(last: Flow, cur: Flow): Flow {
    if Skipped(last, cur) then cur else ProtoShown(last, cur)
  }

  class ProtocolTable {
    const protos: array<Flow>
    const lastProtos: array<Flow>
    const ptrs: array<nat>

    ghost predicate Separate()
      reads this
    {
      protos != lastProtos && protos.Length == lastProtos.Length == ptrs.Length
    }

    constructor (n: nat)
      ensures Separate() && protos.Length == n && fresh(protos) && fresh(lastProtos) && fresh(ptrs)
      ensures forall i :: 0 <= i < n ==> lastProtos[i] == Flow(0, 0)
    {
      protos := new Flow[n](_ => Flow(0, 0));
      lastProtos := new Flow[n](_ => Flow(0, 0));
      ptrs := new nat[n];
    }

    /** The loop over the copied counters.  Exactly the moved protocols are collected. */
    method Gather() returns (num: nat)
      requires Separate()
      modifies protos, lastProtos, ptrs
      ensures num <= ptrs.Length
      ensures ptrs[..num] == Slots(Moved(old(lastProtos[..]), old(protos[..])), 0, protos.Length)
      ensures forall i :: 0 <= i < protos.Length ==>
                protos[i] == Replaced(old(lastProtos[i]), old(protos[i]))
                && lastProtos[i] == ProtoNext(old(lastProtos[i]), old(protos[i]))
    {
      hide FlowDiff;
      ghost var moved := Moved(lastProtos[..], protos[..]);
      num := 0;
      for i := 0 to protos.Length
        invariant num <= i && ptrs[..num] == Slots(moved, 0, i)
        invariant forall j :: 0 <= j < i ==>
                    protos[j] == Replaced(old(lastProtos[j]), old(protos[j]))
                    && lastProtos[j] == ProtoNext(old(lastProtos[j]), old(protos[j]))
        invariant forall j :: i <= j < protos.Length ==> protos[j] == old(protos[j]) && lastProtos[j] == old(lastProtos[j])
      {
        var cur, last := protos[i], lastProtos[i];
        if cur.packets != 0 && cur.packets != last.packets {
          lastProtos[i] := cur;
          protos[i] := FlowDiff(last, cur);
          ptrs[num] := i;
          num := num + 1;
          assert ptrs[..num] == Slots(moved, 0, i) + [i];
        }
      }
    }

    /** _process_protocols with the copy made by check_minute before it: the moved protocols, by
        packets since the last report. */
    method ProcessProtocols(shared: array<Flow>) returns (order: seq<nat>)
      requires Separate() && shared != protos && shared != lastProtos && shared.Length == protos.Length
      modifies protos, lastProtos, ptrs
      ensures forall i :: 0 <= i < protos.Length ==>
                protos[i] == Replaced(old(lastProtos[i]), shared[i])
                && lastProtos[i] == ProtoNext(old(lastProtos[i]), shared[i])
      ensures Ranked(order, Slots(Moved(old(lastProtos[..]), shared[..]), 0, shared.Length), PacketCounts(protos[..]))
    {
      hide Replaced;
      hide ProtoNext;
      hide Slots;
      hide Ranked;
      hide PacketCounts;
      forall i | 0 <= i < protos.Length {
        protos[i] := shared[i];
      }
      assert protos[..] == shared[..] && lastProtos[..] == old(lastProtos[..]);
      ghost var candidates := Slots(Moved(lastProtos[..], protos[..]), 0, protos.Length);
      var num := Gather();
      Rank(ptrs, num, PacketCounts(protos[..]));
      order := ptrs[..num];
      assert candidates == Slots(Moved(old(lastProtos[..]), shared[..]), 0, shared.Length);
    }
  }

  /** A protocol is ranked exactly when it has moved, once, and what is shown for a ranked one is
      what the sum of ProtoDeltasSum adds up. */
  lemma RankedIffMoved(last: seq<Flow>, cur: seq<Flow>, order: seq<nat>, keys: seq<int>, i: nat)
    requires |last| == |cur| && i < |cur|
    requires Ranked(order, Slots(Moved(last, cur), 0, |cur|), keys)
    ensures i in order <==> !Skipped(last[i], cur[i])
    ensures i in order ==> Replaced(last[i], cur[i]) == ProtoShown(last[i], cur[i])
    ensures i !in order ==> ProtoShown(last[i], cur[i]) == Flow(0, 0)
  {
    hide Slots;
    hide Skipped;
    RankedIffFlagged(order, Moved(last, cur), 0, |cur|, keys, i);
  }

  /** The packets of a protocol since the last report. */
  function ProtoGrowth(last: seq<Flow>, cur: seq<Flow>, i: nat): int {
    if i < |last| && i < |cur| then ProtoShown(last[i], cur[i]).packets else 0
  }

  /** The protocol rows are the top twenty of the protocols that moved, by packets since the last report. */
  lemma TopProtocols(last: seq<Flow>, cur: seq<Flow>, protos: seq<Flow>, order: seq<nat>)
    requires |last| == |cur| == |protos| && forall j :: 0 <= j < |cur| ==> protos[j] == Replaced(last[j], cur[j])
    requires Ranked(order, Slots(Moved(last, cur), 0, |cur|), PacketCounts(protos))
    ensures IsTop(Top(order, 20), 20, (i: nat) => i < |cur| && i < |last| && !Skipped(last[i], cur[i]),
                  (i: nat) => ProtoGrowth(last, cur, i))
  {
    hide Slots;
    hide Skipped;
    hide FlowDiff;
    hide Ranked;
    hide IsTop;
    RankedIsTop(order, Moved(last, cur), 0, |cur|, PacketCounts(protos), 20,
                (i: nat) => i < |cur| && i < |last| && !Skipped(last[i], cur[i]), (i: nat) => ProtoGrowth(last, cur, i));
  }
}
