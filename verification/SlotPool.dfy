// The managed array of utils/mgarray.c: a window (lo, hi) of slots that grows outward
// from a midpoint, fills interior holes first and shrinks when slots are released.
module SlotPool {
  import opened Words

  /** lo, hi and num are the unsigned 32-bit fields of mga_info_t; taken is the set of slots
      whose flag is set in the raw array, as the pool's test function sees them. */
  datatype Pool = Pool(idxMin: nat, total: nat, lo: nat, hi: nat, num: nat, taken: set<int>)
  {
    function Mid(): nat { idxMin + total / 2 }
    // The slots an anchored run really uses: total of them, shifted up by one when total is even.
    function LowEnd(): int { idxMin + 1 - total % 2 }
    function HighEnd(): int { Mid() + total / 2 }
    predicate InWindow(i: int) { LowEnd() <= i <= HighEnd() }
  }

  datatype Outcome = NoRoom | Handed(idx: nat, pool: Pool) | AssertFails

  datatype Op = AllocOp | FreeOp(idx: nat)

  function Init(idxMin: nat, total: nat): Pool {
    var mid := idxMin + total / 2;
    Pool(idxMin, total, mid, mid + 1, 0, {})
  }

  /** The first free slot in [i, hi), or hi when there is none. */
  function FirstFree(taken: set<int>, i: nat, hi: nat): (r: nat)
    requires i <= hi
    ensures i <= r <= hi
    ensures r < hi ==> r !in taken
    ensures forall j :: i <= j < r ==> j in taken
    decreases hi - i
  {
    if i == hi || i !in taken then i else FirstFree(taken, i + 1, hi)
  }

  predicate MoreLoThanHi(p: Pool) {
    U32(p.Mid() - p.lo) > U32(p.hi - 1 - p.Mid())
  }

  function Alloc(p: Pool): Outcome {
    var diff := I32(p.hi - p.lo - 1);
    if p.num >= p.total then NoRoom
    else if diff < 0 then AssertFails
    else if diff > p.num then
      var i := if U32(p.lo + 1) <= p.hi then FirstFree(p.taken, U32(p.lo + 1), p.hi) else p.hi;
      if i < p.hi then Handed(i, p.(num := p.num + 1, taken := p.taken + {i})) else AssertFails
    else if MoreLoThanHi(p) then
      if p.hi in p.taken then AssertFails
      else Handed(p.hi, p.(hi := U32(p.hi + 1), num := p.num + 1, taken := p.taken + {p.hi}))
    else if p.lo in p.taken then AssertFails
    else Handed(p.lo, p.(lo := U32(p.lo - 1), num := p.num + 1, taken := p.taken + {p.lo}))
  }

  /** Where the first shrink loop leaves idx_lo. */
  function ShrinkLo(taken: set<int>, lo: nat, mid: nat): (r: nat)
    ensures lo <= r && (lo <= mid ==> r <= mid) && (lo > mid ==> r == lo)
    ensures r < mid ==> r + 1 in taken
    ensures forall j :: lo < j <= r ==> j !in taken
    decreases mid - lo
  {
    if lo < mid && lo + 1 !in taken then ShrinkLo(taken, lo + 1, mid) else lo
  }

  /** Where the second shrink loop leaves idx_hi. */
  function ShrinkHi(taken: set<int>, lo: nat, hi: nat): (r: nat)
    ensures r <= hi && (lo + 1 <= hi ==> lo + 1 <= r) && (hi <= lo + 1 ==> r == hi)
    ensures r > lo + 1 ==> r - 1 in taken
    ensures forall j :: r <= j < hi ==> j !in taken
    decreases hi
  {
    if hi > lo + 1 && hi - 1 !in taken then ShrinkHi(taken, lo, hi - 1) else hi
  }

  /** Whether a release of idx does anything at all. */
  predicate Releases(p: Pool, idx: nat) {
    p.lo < idx < p.hi && idx in p.taken
  }

  function Free(p: Pool, idx: nat): Pool {
    if !Releases(p, idx) then p
    else
      var t := p.taken - {idx};
      var lo := ShrinkLo(t, p.lo, p.Mid());
      p.(num := U32(p.num - 1), taken := t, lo := lo, hi := ShrinkHi(t, lo, p.hi))
  }

  // ----- the invariant of anchored runs -----

  /** The index arithmetic stays inside 32 bits and idx_lo never has to go below zero. */
  predicate Fits32(idxMin: nat, total: nat) {
    idxMin + total + 2 < 0x8000_0000 && (total % 2 == 1 ==> idxMin >= 1)
  }

  ghost predicate Ok(p: Pool) {
    && Fits32(p.idxMin, p.total)
    && p.LowEnd() - 1 <= p.lo <= p.Mid()
    && p.Mid() + 1 <= p.hi <= p.HighEnd() + 1
    && (forall i :: i in p.taken ==> p.lo < i < p.hi)
    && p.num == |p.taken|
    && (p.lo < p.Mid() ==> p.lo + 1 in p.taken)
    && (p.hi > p.lo + 1 ==> p.hi - 1 in p.taken)
  }

  /** Releasing idx leaves a taken slot at or above the midpoint, or none below it. */
  ghost predicate Anchored(p: Pool, idx: nat) {
    Releases(p, idx) ==>
      || (exists i :: i in p.taken && i != idx && p.Mid() <= i)
      || (forall i :: i in p.taken && i != idx ==> p.Mid() <= i)
  }

  /** A set inside [a, b) has at most b - a members, and all of [a, b) when it has that many. */
  lemma {:induction false} BoundedSize(s: set<int>, a: int, b: int)
    requires a <= b
    requires forall i :: i in s ==> a <= i < b
    ensures |s| <= b - a
    ensures |s| == b - a <==> (forall i :: a <= i < b ==> i in s)
    decreases b - a
  {
    if a == b {
      assert s == {};
    } else {
      BoundedSize(s - {b - 1}, a, b - 1);
      if b - 1 in s {
        assert s == (s - {b - 1}) + {b - 1};
      } else {
        assert s - {b - 1} == s;
      }
      assert forall i :: a <= i < b - 1 ==> (i in s - {b - 1} <==> i in s);
    }
  }

  /** Taken slots fill the open window exactly when their number equals its length. */
  lemma WindowFill(p: Pool)
    requires Ok(p)
    ensures p.num <= p.hi - p.lo - 1
    ensures p.num == p.hi - p.lo - 1 <==> (forall i :: p.lo < i < p.hi ==> i in p.taken)
  {
    BoundedSize(p.taken, p.lo + 1, p.hi);
  }

  /** The pool after slot i was taken and the window became (lo, hi). */
  function Took(p: Pool, i: nat, lo: nat, hi: nat): Pool {
    p.(num := p.num + 1, taken := p.taken + {i}, lo := lo, hi := hi)
  }

  /** With a hole in the window the lowest one is handed out. */
  lemma AllocInHole(p: Pool)
    requires Ok(p) && p.num < p.total && p.num < p.hi - p.lo - 1
    ensures var i := FirstFree(p.taken, p.lo + 1, p.hi);
            i < p.hi && Alloc(p) == Handed(i, Took(p, i, p.lo, p.hi))
  {
    WindowFill(p);
  }

  /** A full window grows on its shorter side, the lower one when both are as long. */
  lemma AllocAtEnd(p: Pool)
    requires Ok(p) && p.num < p.total && p.num == p.hi - p.lo - 1
    ensures if p.Mid() - p.lo > p.hi - 1 - p.Mid() then
              Alloc(p) == Handed(p.hi, Took(p, p.hi, p.lo, p.hi + 1))
            else
              p.lo > 0 && Alloc(p) == Handed(p.lo, Took(p, p.lo, p.lo - 1, p.hi))
  {
  }

  lemma HoleOk(p: Pool, i: nat)
    requires Ok(p) && p.lo < i < p.hi && i !in p.taken
    ensures Ok(Took(p, i, p.lo, p.hi))
  {
  }

  lemma GrowHiOk(p: Pool)
    requires Ok(p) && p.num == p.hi - p.lo - 1 < p.total
    requires p.Mid() - p.lo > p.hi - 1 - p.Mid()
    ensures p.InWindow(p.hi) && Ok(Took(p, p.hi, p.lo, p.hi + 1))
  {
    var t := Took(p, p.hi, p.lo, p.hi + 1).taken;
    assert forall i :: i in t ==> i in p.taken || i == p.hi;
  }

  lemma GrowLoOk(p: Pool)
    requires Ok(p) && p.num == p.hi - p.lo - 1 < p.total
    requires p.Mid() - p.lo <= p.hi - 1 - p.Mid()
    ensures p.lo > 0 && p.InWindow(p.lo) && Ok(Took(p, p.lo, p.lo - 1, p.hi))
  {
    var t := Took(p, p.lo, p.lo - 1, p.hi).taken;
    assert forall i :: i in t ==> i in p.taken || i == p.lo;
  }

  /** No assert of mga_alloc_entry can fail; NULL comes back exactly when total slots are taken;
      otherwise a slot of the fixed window that was not taken is handed out. */
  lemma AllocOk(p: Pool)
    requires Ok(p)
    ensures !Alloc(p).AssertFails?
    ensures Alloc(p).NoRoom? <==> |p.taken| == p.total
    ensures |p.taken| <= p.total
    ensures Alloc(p).Handed? ==>
              var q, i := Alloc(p).pool, Alloc(p).idx;
              Ok(q) && p.InWindow(i) && i !in p.taken && q.taken == p.taken + {i}
              && q.idxMin == p.idxMin && q.total == p.total
  {
    WindowFill(p);
    if p.num < p.total {
      if p.num < p.hi - p.lo - 1 {
        AllocInHole(p);
        HoleOk(p, FirstFree(p.taken, p.lo + 1, p.hi));
      } else {
        AllocAtEnd(p);
        if p.Mid() - p.lo > p.hi - 1 - p.Mid() {
          GrowHiOk(p);
        } else {
          GrowLoOk(p);
        }
      }
    }
  }

  /** What a release does to the set of taken slots, anchored or not. */
  lemma FreeTaken(p: Pool, idx: nat)
    requires forall i :: i in p.taken ==> p.lo < i < p.hi
    ensures Free(p, idx).taken == p.taken - {idx}
  {
  }

  /** A release keeps the invariant exactly when it is anchored. */
  lemma FreeOkIffAnchored(p: Pool, idx: nat)
    requires Ok(p)
    ensures Ok(Free(p, idx)) <==> Anchored(p, idx)
  {
    hide ShrinkLo;
    hide ShrinkHi;
    if Releases(p, idx) {
      var q := Free(p, idx);
      WindowFill(p);
      assert q.taken == p.taken - {idx as int} && q.num == |q.taken|;
      assert forall i :: i in q.taken ==> q.lo < i < q.hi;
      assert Ok(q) <==> q.hi >= p.Mid() + 1;
      if q.hi >= p.Mid() + 1 && q.hi > q.lo + 1 {
        assert q.hi - 1 in q.taken && p.Mid() <= q.hi - 1;
      }
      if q.lo < p.Mid() {
        assert q.lo + 1 in q.taken;
      }
      if i :| i in p.taken && i != idx && p.Mid() <= i {
        assert i in q.taken;
      }
    }
  }

  /** A hole is reused before the window grows; no wrap-around and no failing assert is left. */
  lemma AllocPlan(p: Pool)
    requires Ok(p)
    ensures p.lo < p.hi
    ensures p.num >= p.total ==> Alloc(p) == NoRoom
    ensures p.num < p.total ==>
              if p.hi - p.lo - 1 > p.num then
                var i := FirstFree(p.taken, p.lo + 1, p.hi);
                p.InWindow(i) && Alloc(p) == Handed(i, Took(p, i, p.lo, p.hi))
              else if p.Mid() - p.lo > p.hi - 1 - p.Mid() then
                p.InWindow(p.hi) && Alloc(p) == Handed(p.hi, Took(p, p.hi, p.lo, p.hi + 1))
              else
                p.lo > 0 && p.InWindow(p.lo) && Alloc(p) == Handed(p.lo, Took(p, p.lo, p.lo - 1, p.hi))
  {
    WindowFill(p);
    AllocOk(p);
    if p.num < p.total {
      if p.num < p.hi - p.lo - 1 {
        AllocInHole(p);
      } else {
        AllocAtEnd(p);
      }
    }
  }

  /** An even pool that has not handed out the last slot of its window yet does so exactly when every
      other slot is taken. */
  lemma LastSlotComesLast(p: Pool)
    requires Ok(p) && p.total >= 2 && p.total % 2 == 0 && p.HighEnd() !in p.taken
    ensures |p.taken| <= p.total - 1 && Alloc(p).Handed?
    ensures Alloc(p).idx == p.HighEnd() <==> |p.taken| == p.total - 1
  {
    BoundedSize(p.taken, p.LowEnd(), p.HighEnd());
    WindowFill(p);
    AllocOk(p);
    AllocPlan(p);
    hide Alloc;
  }

  lemma AllocKeepsOk(p: Pool, q: Pool)
    requires Ok(p) && Alloc(p).Handed? && Alloc(p).pool == q
    ensures Ok(q)
  {
    AllocOk(p);
  }

  lemma FreeIs(p: Pool, idx: nat, q: Pool)
    requires Ok(p) && Releases(p, idx)
    requires q.lo == ShrinkLo(p.taken - {idx}, p.lo, p.Mid()) && q.hi == ShrinkHi(p.taken - {idx}, q.lo, p.hi)
    requires q == p.(num := p.num - 1, taken := p.taken - {idx}, lo := q.lo, hi := q.hi)
    ensures q == Free(p, idx)
  {
    WindowFill(p);
  }

  // ----- runs -----

  /** The pool after one call; a call whose assert fails has no successor state. */
  function Step(p: Pool, op: Op): (q: Pool) {
    match op
    case AllocOp => (match Alloc(p) case Handed(_, q) => q case _ => p)
    case FreeOp(i) => Free(p, i)
  }

  function Run(p: Pool, ops: seq<Op>): (q: Pool)
    decreases |ops|
  {
    if ops == [] then p else Step(Run(p, ops[..|ops| - 1]), ops[|ops| - 1])
  }

  ghost predicate AnchoredRun(p: Pool, ops: seq<Op>) {
    forall k :: 0 <= k < |ops| && ops[k].FreeOp? ==> Anchored(Run(p, ops[..k]), ops[k].idx)
  }

  lemma {:induction false} RunOk(idxMin: nat, total: nat, ops: seq<Op>)
    requires Fits32(idxMin, total)
    requires AnchoredRun(Init(idxMin, total), ops)
    ensures Ok(Run(Init(idxMin, total), ops))
    ensures Run(Init(idxMin, total), ops).idxMin == idxMin
    ensures Run(Init(idxMin, total), ops).total == total
    decreases |ops|
  {
    var p0 := Init(idxMin, total);
    if ops != [] {
      var n := |ops| - 1;
      var before := ops[..n];
      forall k | 0 <= k < n && before[k].FreeOp?
        ensures Anchored(Run(p0, before[..k]), before[k].idx)
      {
        assert before[..k] == ops[..k];
      }
      RunOk(idxMin, total, before);
      AllocOk(Run(p0, before));
      if ops[n].FreeOp? {
        FreeOkIffAnchored(Run(p0, before), ops[n].idx);
      }
    }
  }

  /** Every anchored run: whatever is called next, no assert fails, a handed-out slot is in the
      one window of total slots and is not taken, and NULL means total slots are taken. */
  lemma AnchoredRunSafe(idxMin: nat, total: nat, ops: seq<Op>)
    requires Fits32(idxMin, total)
    requires AnchoredRun(Init(idxMin, total), ops)
    ensures var p := Run(Init(idxMin, total), ops);
            && (forall i :: i in p.taken ==> p.InWindow(i))
            && p.HighEnd() - p.LowEnd() + 1 == total
            && !Alloc(p).AssertFails?
            && (Alloc(p).NoRoom? <==> |p.taken| == total)
            && (Alloc(p).Handed? ==> p.InWindow(Alloc(p).idx) && Alloc(p).idx !in p.taken)
  {
    RunOk(idxMin, total, ops);
    var p := Run(Init(idxMin, total), ops);
    AllocOk(p);
  }

  /** n allocations in a row. */
  function Allocs(n: nat): (ops: seq<Op>) {
    seq(n, i => AllocOp)
  }

  /** n slots taken from a fresh pool: every second one below the midpoint. */
  ghost predicate FilledTo(p: Pool, n: nat) {
    && p.num == n
    && p.lo == U32(p.Mid() - (n + 1) / 2) && p.hi == p.Mid() + 1 + n / 2
    && (forall i :: i in p.taken <==> p.Mid() - (n + 1) / 2 < i < p.hi)
  }

  /** The next allocation after n goes below the midpoint when n is even, above it when odd. */
  lemma FillStep(p: Pool, n: nat)
    requires p.idxMin + p.total + 2 < 0x8000_0000
    requires n < p.total && FilledTo(p, n)
    ensures Alloc(p).Handed?
    ensures Alloc(p).idx == if n % 2 == 0 then p.Mid() - n / 2 else p.Mid() + 1 + n / 2
    ensures FilledTo(Step(p, AllocOp), n + 1)
    ensures Step(p, AllocOp).idxMin == p.idxMin && Step(p, AllocOp).total == p.total
  {
    assert p.lo == p.Mid() - (n + 1) / 2;
    assert p.hi - p.lo - 1 == n;
    assert MoreLoThanHi(p) <==> n % 2 == 1;
  }

  /** Filling a fresh pool alternates between the two ends of the window. */
  lemma {:induction false} FillRun(p0: Pool, n: nat)
    requires p0 == Init(p0.idxMin, p0.total)
    requires p0.idxMin + p0.total + 2 < 0x8000_0000 && n <= p0.total
    ensures FilledTo(Run(p0, Allocs(n)), n)
    ensures Run(p0, Allocs(n)).idxMin == p0.idxMin && Run(p0, Allocs(n)).total == p0.total
  {
    if n == 0 {
      assert FilledTo(p0, 0);
    } else {
      FillRun(p0, n - 1);
      assert Allocs(n)[..n - 1] == Allocs(n - 1);
      FillStep(Run(p0, Allocs(n - 1)), n - 1);
    }
  }

  /** The caller's range [idx_min, idx_max] is respected by every anchored run exactly when the
      capacity is odd; an even pool hands out idx_max + 1 when it is filled. */
  lemma InRangeIffOdd(idxMin: nat, total: nat)
    requires Fits32(idxMin, total) && total > 0
    ensures (forall ops :: AnchoredRun(Init(idxMin, total), ops) ==>
               forall i :: i in Run(Init(idxMin, total), ops).taken ==> idxMin <= i < idxMin + total)
            <==> total % 2 == 1
  {
    var p0 := Init(idxMin, total);
    if total % 2 == 1 {
      forall ops | AnchoredRun(p0, ops)
        ensures forall i :: i in Run(p0, ops).taken ==> idxMin <= i < idxMin + total
      {
        RunOk(idxMin, total, ops);
      }
    } else {
      var ops := Allocs(total);
      FillRun(p0, total);
      assert AnchoredRun(p0, ops);
      assert idxMin + total in Run(p0, ops).taken;
    }
  }

  /** With idx_min = 0 and odd capacity a full pool has idx_lo wrapped below zero, and then every
      release is rejected. */
  lemma ZeroBaseRejectsFrees(total: nat, idx: nat)
    requires total % 2 == 1 && total + 2 < 0x8000_0000 && idx < WORD32
    ensures var p := Run(Init(0, total), Allocs(total));
            (forall i :: i in p.taken <==> 0 <= i < total) && Free(p, idx) == p
  {
    hide ShrinkLo;
    hide ShrinkHi;
    hide Run;
    FillRun(Init(0, total), total);
    var p := Run(Init(0, total), Allocs(total));
    assert p.lo == U32(-1) == 0xFFFF_FFFF;
    assert !Releases(p, idx);
  }

  /** A run that is not anchored: one release empties the upper half while slot 11 below the
      midpoint 12 stays taken.  Later allocations walk below idx_min, and once everything is
      released idx_lo has met idx_hi and the next call fails its assert. */
  lemma NonAnchoredRun()
    ensures var p := Run(Init(10, 4), [AllocOp, AllocOp, AllocOp, FreeOp(13)]);
            p.taken == {11, 12} && !Anchored(p, 12)
            && var q := Step(Step(Free(p, 12), AllocOp), AllocOp);
               9 in q.taken && Alloc(Free(Free(Free(q, 11), 10), 9)) == AssertFails
  {
    var p0 := Init(10, 4);
    var ops := [AllocOp, AllocOp, AllocOp, FreeOp(13)];
    assert ops[..3] == Allocs(3);
    ThreeTaken();
    assert Run(p0, ops) == Free(Run(p0, Allocs(3)), 13);
    hide Run;
    hide Anchored;
    hide Alloc;
    ThirteenFreed(Run(p0, Allocs(3)));
    NonAnchoredTail(Run(p0, ops));
  }

  lemma ThreeTaken()
    ensures Run(Init(10, 4), Allocs(3)) == Pool(10, 4, 10, 14, 3, {11, 12, 13})
  {
    hide Run;
    FillRun(Init(10, 4), 3);
    var p := Run(Init(10, 4), Allocs(3));
    assert forall i :: i in p.taken <==> 10 < i < 14;
    assert p.taken == {11, 12, 13};
  }

  lemma ThirteenFreed(p: Pool)
    requires p == Pool(10, 4, 10, 14, 3, {11, 12, 13})
    ensures Free(p, 13) == Pool(10, 4, 10, 13, 2, {11, 12})
  {
    assert p.taken - {13} == {11, 12};
  }

  lemma NonAnchoredTail(p: Pool)
    requires p == Pool(10, 4, 10, 13, 2, {11, 12})
    ensures !Anchored(p, 12)
    ensures var q := Step(Step(Free(p, 12), AllocOp), AllocOp);
            9 in q.taken && Alloc(Free(Free(Free(q, 11), 10), 9)) == AssertFails
  {
    var p1 := Free(p, 12);
    assert p1 == Pool(10, 4, 10, 12, 1, {11}) by {
      assert p.taken - {12} == {11};
    }
    var q := Step(Step(p1, AllocOp), AllocOp);
    assert q == Pool(10, 4, 8, 12, 3, {9, 10, 11}) by {
      assert Step(p1, AllocOp) == Pool(10, 4, 9, 12, 2, {10, 11});
    }
    var r := Free(q, 11);
    assert r == Pool(10, 4, 8, 11, 2, {9, 10}) by {
      assert q.taken - {11} == {9, 10};
    }
    var r2 := Free(r, 10);
    assert r2 == Pool(10, 4, 8, 10, 1, {9}) by {
      assert r.taken - {10} == {9};
    }
    var r3 := Free(r2, 9);
    assert r3 == Pool(10, 4, 12, 10, 0, {}) by {
      assert r2.taken - {9} == {};
    }
  }

  // ----- the class -----

  /** The indexes in [a, b] whose flag is set. */
  ghost function Flags(raw: seq<bool>, a: int, b: int): (r: set<int>)
    ensures forall i :: i in r <==> 0 <= i < |raw| && a <= i <= b && raw[i]
  {
    set i: int | 0 <= i < |raw| && a <= i <= b && raw[i]
  }

  lemma FlagsSet(raw: seq<bool>, a: int, b: int, i: int)
    requires 0 <= i < |raw| && a <= i <= b
    ensures Flags(raw[i := true], a, b) == Flags(raw, a, b) + {i}
  {
  }

  lemma FlagsClear(raw: seq<bool>, a: int, b: int, i: int)
    requires 0 <= i < |raw|
    ensures Flags(raw[i := false], a, b) == Flags(raw, a, b) - {i}
  {
  }

  /** mgarray_t together with its mga_info_t.  raw holds the flag that isempty_func tests; other
      pools may own other parts of the same raw array. */
  class ManagedArray {
    const raw: array<bool>
    const idxMin: nat
    const total: nat
    var num: nat
    var lo: nat
    var hi: nat

    ghost function ViewOf(flags: seq<bool>): Pool
      reads this
    {
      Pool(idxMin, total, lo, hi, num, Flags(flags, idxMin + 1 - total % 2, idxMin + total / 2 + total / 2))
    }

    ghost function View(): Pool
      reads this, raw
    {
      ViewOf(raw[..])
    }

    ghost predicate Valid()
      reads this, raw
    {
      Ok(View()) && idxMin + total / 2 + total / 2 < raw.Length
    }

    constructor (raw: array<bool>, idxMin: nat, total: nat)
      requires Fits32(idxMin, total)
      requires idxMin + total / 2 + total / 2 < raw.Length
      requires forall i :: 0 <= i < raw.Length ==> !raw[i]
      ensures this.raw == raw && Valid()
      ensures View() == Init(idxMin, total)
    {
      this.raw, this.idxMin, this.total := raw, idxMin, total;
      num := 0;
      lo := idxMin + total / 2;
      hi := idxMin + total / 2 + 1;
    }

    /** found is false where the code returns NULL. */
    method AllocEntry() returns (found: bool, idx: nat)
      requires Valid()
      modifies this, raw
      ensures Valid()
      ensures Alloc(old(View())) == if found then Handed(idx, View()) else NoRoom
      ensures found ==> idx < raw.Length && raw[..] == old(raw[..])[idx := true]
      ensures !found ==> raw[..] == old(raw[..]) && View() == old(View())
    {
      hide Ok;
      hide Alloc;
      ghost var p := View();
      AllocPlan(p);
      found, idx := false, 0;
      if num >= total {
        return;
      }
      found := true;
      if hi - lo - 1 > num {
        idx := FirstFreeSlot();
        Take(idx);
        assert View() == Took(p, idx, p.lo, p.hi);
      } else if (idxMin + total / 2) - lo > hi - 1 - (idxMin + total / 2) {
        idx := hi;
        Take(hi);
        hi := hi + 1;
        assert View() == Took(p, idx, p.lo, p.hi + 1);
      } else {
        idx := lo;
        Take(lo);
        lo := lo - 1;
        assert View() == Took(p, idx, p.lo - 1, p.hi);
      }
      AllocKeepsOk(p, View());
    }

    /** The interior scan of mga_alloc_entry. */
    method FirstFreeSlot() returns (i: nat)
      requires Valid()
      ensures i == FirstFree(View().taken, lo + 1, hi)
    {
      i := lo + 1;
      while i < hi && raw[i]
        invariant lo < i <= hi
        invariant forall j :: lo < j < i ==> raw[j]
      {
        i := i + 1;
      }
    }

    /** Marks a slot of the window and counts it, as isempty_func with MGA_OP_TSTSET does. */
    method Take(idx: nat)
      requires idx < raw.Length && View().InWindow(idx)
      modifies this`num, raw
      ensures raw[..] == old(raw[..])[idx := true]
      ensures View() == Took(old(View()), idx, lo, hi)
    {
      FlagsSet(raw[..], idxMin + 1 - total % 2, idxMin + total / 2 + total / 2, idx);
      num := num + 1;
      raw[idx] := true;
      assert raw[..] == old(raw[..])[idx := true];
    }

    /** Clears a slot and uncounts it. */
    method Release(idx: nat)
      requires idx < raw.Length && 0 < num
      modifies this`num, raw
      ensures raw[..] == old(raw[..])[idx := false]
      ensures View() == old(View()).(num := old(num) - 1, taken := old(View()).taken - {idx})
    {
      FlagsClear(raw[..], idxMin + 1 - total % 2, idxMin + total / 2 + total / 2, idx);
      num := num - 1;
      raw[idx] := false;
      assert raw[..] == old(raw[..])[idx := false];
    }

    /** The release itself always happens; the invariant survives exactly an anchored one. */
    method FreeEntry(idx: nat)
      requires Valid()
      modifies this, raw
      ensures View() == Free(old(View()), idx)
      ensures Ok(View()) <==> Anchored(old(View()), idx)
      ensures raw[..] == if Releases(old(View()), idx) then old(raw[..])[idx := false] else old(raw[..])
    {
      hide Anchored;
      ghost var p := View();
      if lo < idx && idx < hi && raw[idx] {
        assert num > 0 by {
          WindowFill(p);
        }
        Release(idx);
        Shrink(p.taken - {idx as int});
        FreeIs(p, idx, View());
      }
      FreeOkIffAnchored(p, idx);
    }

    /** The two loops at the end of mga_free_entry. */
    method Shrink(ghost t: set<int>)
      requires idxMin + 1 - total % 2 <= lo + 1 && lo < hi <= idxMin + total / 2 + total / 2 + 1 <= raw.Length
      requires lo <= idxMin + total / 2 < hi
      requires forall i :: lo < i < hi ==> (raw[i] <==> i in t)
      modifies this`lo, this`hi
      ensures lo == ShrinkLo(t, old(lo), idxMin + total / 2)
      ensures hi == ShrinkHi(t, lo, old(hi))
    {
      var mid := idxMin + total / 2;
      while lo < mid && !raw[lo + 1]
        invariant old(lo) <= lo <= mid && hi == old(hi)
        invariant ShrinkLo(t, old(lo), mid) == ShrinkLo(t, lo, mid)
      {
        lo := lo + 1;
      }
      while hi > lo + 1 && !raw[hi - 1]
        invariant lo == ShrinkLo(t, old(lo), mid) && lo < hi <= old(hi)
        invariant ShrinkHi(t, lo, old(hi)) == ShrinkHi(t, lo, hi)
      {
        hi := hi - 1;
      }
    }
  }
}
