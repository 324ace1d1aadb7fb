// Counter deltas between successive minute reports: statproc/statproc_handlers.c.
module Deltas {
  import opened Structs
  import opened StatClock

  /** What one report finds in a slot: its tenant, known by start time, and a cumulative counter. */
  datatype Obs = Obs(tenant: Tval, count: int)

  const NOTHING := Obs(Tval(0, 0), 0)

  /** The number the report shows, given what the previous snapshot holds. */
  function Shown(last: Obs, cur: Obs): int {
    if cur.tenant == last.tenant then U32Diff(last.count, cur.count) else cur.count
  }

  function LastOf(obs: seq<Obs>): Obs {
    if obs == [] then NOTHING else obs[|obs| - 1]
  }

  /** The sum of what the reports showed for tenant t. */
  function SumShown(obs: seq<Obs>, t: Tval): int {
    if obs == [] then 0
    else
      var before := obs[..|obs| - 1];
      SumShown(before, t) + if LastOf(obs).tenant == t then Shown(LastOf(before), LastOf(obs)) else 0
  }

  /** The last cumulative counter seen for tenant t. */
  function Latest(obs: seq<Obs>, t: Tval): int {
    if obs == [] then 0
    else if LastOf(obs).tenant == t then LastOf(obs).count
    else Latest(obs[..|obs| - 1], t)
  }

  /** A tenant's counter does not shrink while it stays, and no tenant comes back. */
  ghost predicate Tenancies(obs: seq<Obs>) {
    && (forall i :: 0 <= i < |obs| ==> !EmptySlot(obs[i].tenant))
    && (forall i, j :: 0 <= i < j < |obs| && obs[i].tenant == obs[j].tenant ==> obs[j - 1].tenant == obs[j].tenant)
    && (forall i :: 0 < i < |obs| && obs[i - 1].tenant == obs[i].tenant ==> obs[i - 1].count <= obs[i].count)
  }

  lemma {:induction false} AbsentTenant(obs: seq<Obs>, t: Tval)
    requires forall i :: 0 <= i < |obs| ==> obs[i].tenant != t
    ensures Latest(obs, t) == 0 == SumShown(obs, t)
    decreases |obs|
  {
    if obs != [] {
      AbsentTenant(obs[..|obs| - 1], t);
    }
  }

  /** Over any sequence of reports the deltas shown for a tenant add up to its latest counter. */
  lemma {:induction false} DeltasSumToCounter(obs: seq<Obs>, t: Tval)
    requires Tenancies(obs)
    ensures SumShown(obs, t) == Latest(obs, t)
    decreases |obs|
  {
    if obs != [] {
      var n := |obs| - 1;
      var before := obs[..n];
      DeltasSumToCounter(before, t);
      if obs[n].tenant == t {
        if n > 0 && obs[n - 1].tenant == t {
          assert Latest(before, t) == before[n - 1].count;
        } else {
          forall i | 0 <= i < |before|
            ensures before[i].tenant != t
          {
            assert before[i] == obs[i];
          }
          AbsentTenant(before, t);
        }
      }
    }
  }

  // ----- protocols: no tenants, and unchanged entries are skipped -----

  predicate Skipped(last: Flow, cur: Flow) {
    cur.packets == 0 || cur.packets == last.packets
  }

  /** What the report takes for a protocol, and what it remembers of it. */
  function ProtoShown(last: Flow, cur: Flow): Flow {
    if Skipped(last, cur) then Flow(0, 0) else FlowDiff(last, cur)
  }

  function ProtoNext(last: Flow, cur: Flow): Flow {
    if Skipped(last, cur) then last else cur
  }

  function ProtoLast(obs: seq<Flow>): Flow {
    if obs == [] then Flow(0, 0) else ProtoNext(ProtoLast(obs[..|obs| - 1]), obs[|obs| - 1])
  }

  function ProtoSum(obs: seq<Flow>): Flow {
    if obs == [] then Flow(0, 0)
    else
      var n := |obs| - 1;
      var shown, sum := ProtoShown(ProtoLast(obs[..n]), obs[n]), ProtoSum(obs[..n]);
      Flow(sum.packets + shown.packets, sum.bytes + shown.bytes)
  }

  /** Both counters start at zero, do not shrink, and bytes move only with packets. */
  ghost predicate ProtoGrows(obs: seq<Flow>) {
    forall i :: 0 <= i < |obs| ==> Grew(Previous(obs, i), obs[i])
  }

  function Previous(obs: seq<Flow>, i: nat): Flow
    requires i <= |obs|
  {
    if i == 0 then Flow(0, 0) else obs[i - 1]
  }

  predicate Grew(prev: Flow, cur: Flow) {
    && prev.packets <= cur.packets && prev.bytes <= cur.bytes
    && (prev.packets == cur.packets ==> prev.bytes == cur.bytes)
  }

  /** For each protocol index the deltas shown add up to the latest counters. */
  lemma {:induction false} ProtoDeltasSum(obs: seq<Flow>)
    requires ProtoGrows(obs)
    ensures var latest := Previous(obs, |obs|);
            ProtoSum(obs) == latest && ProtoLast(obs) == latest && latest.packets >= 0 && latest.bytes >= 0
    decreases |obs|
  {
    if obs != [] {
      var n := |obs| - 1;
      var before := obs[..n];
      forall i | 0 <= i < n
        ensures Grew(Previous(before, i), before[i])
      {
        assert Grew(Previous(obs, i), obs[i]);
      }
      ProtoDeltasSum(before);
    }
  }
}
