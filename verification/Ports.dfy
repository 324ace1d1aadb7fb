// The watched-port bitmask of net/ports.h and statproc/statproc_handlers.c.
module Ports {

  // Bit i of a mask stands for WATCHED[i].
  const WATCHED: seq<nat> := [21, 22, 23, 53, 80, 123, 135, 137, 138, 161, 162, 389, 443, 445, 37, 8080]

  /** A 16-bit word by its bits, the lowest first. */
  type Word16 = w: seq<bool> | |w| == 16 witness
    [false, false, false, false, false, false, false, false, false, false, false, false, false, false, false, false]

  const ZERO16: Word16 := [
    false, false, false, false, false, false, false, false, false, false, false, false, false, false, false, false]

  /** w | (1 << k) */
  function OrBit(w: Word16, k: nat): Word16
    requires k < 16
  {
    w[k := true]
  }

  /** w >> 1 */
  function ShiftRight(w: Word16): Word16 {
    w[1..] + [false]
  }

  /** _set_port_bit. */
  function SetPortBit(mask: Word16, port: nat): Word16 {
    match port
    case 21 => OrBit(mask, 0)
    case 22 => OrBit(mask, 1)
    case 23 => OrBit(mask, 2)
    case 53 => OrBit(mask, 3)
    case 80 => OrBit(mask, 4)
    case 123 => OrBit(mask, 5)
    case 135 => OrBit(mask, 6)
    case 137 => OrBit(mask, 7)
    case 138 => OrBit(mask, 8)
    case 161 => OrBit(mask, 9)
    case 162 => OrBit(mask, 10)
    case 389 => OrBit(mask, 11)
    case 443 => OrBit(mask, 12)
    case 445 => OrBit(mask, 13)
    case 37 => OrBit(mask, 14)
    case 8080 => OrBit(mask, 15)
    case _ => mask
  }

  /** Marking a port sets the bit of that port and no other. */
  lemma SetPortBitSets(mask: Word16, port: nat, i: nat)
    requires i < 16
    ensures SetPortBit(mask, port)[i] <==> mask[i] || WATCHED[i] == port
  {
  }

  /** These are the watched ports. */
  lemma WatchedPorts(p: nat)
    ensures p in WATCHED <==>
            p in {21, 22, 23, 37, 53, 80, 123, 135, 137, 138, 161, 162, 389, 443, 445, 8080}
  {
    assert WATCHED[0] == 21 && WATCHED[1] == 22 && WATCHED[2] == 23 && WATCHED[3] == 53;
    assert WATCHED[4] == 80 && WATCHED[5] == 123 && WATCHED[6] == 135 && WATCHED[7] == 137;
    assert WATCHED[8] == 138 && WATCHED[9] == 161 && WATCHED[10] == 162 && WATCHED[11] == 389;
    assert WATCHED[12] == 443 && WATCHED[13] == 445 && WATCHED[14] == 37 && WATCHED[15] == 8080;
  }

  lemma WatchedDistinct(i: nat, j: nat)
    requires i < j < 16
    ensures WATCHED[i] != WATCHED[j]
  {
  }

  /** The watched ports whose bit is set, from bit i on. */
  function PortsFrom(mask: Word16, i: nat): (s: set<nat>)
    requires i <= 16
    decreases 16 - i
  {
    if i == 16 then {} else PortsFrom(mask, i + 1) + if mask[i] then {WATCHED[i]} else {}
  }

  lemma {:induction false} PortsFromMeans(mask: Word16, i: nat, p: nat)
    requires i <= 16
    ensures p in PortsFrom(mask, i) <==> exists j: nat :: i <= j < 16 && mask[j] && WATCHED[j] == p
    decreases 16 - i
  {
    if i < 16 {
      PortsFromMeans(mask, i + 1, p);
      if j: nat :| i <= j < 16 && mask[j] && WATCHED[j] == p && j != i {
        assert i + 1 <= j;
      }
    }
  }

  lemma PortsFromStep(mask: Word16, i: nat)
    requires i < 16
    ensures |PortsFrom(mask, i)| == |PortsFrom(mask, i + 1)| + if mask[i] then 1 else 0
  {
    PortsFromMeans(mask, i + 1, WATCHED[i]);
    if j: nat :| i + 1 <= j < 16 && mask[j] && WATCHED[j] == WATCHED[i] {
      WatchedDistinct(i, j);
    }
  }

  lemma PortsFromEnd(mask: Word16)
    ensures PortsFrom(mask, 16) == {}
  {
  }

  method CountBits16(mask: Word16) returns (num: nat)
    ensures num == |PortsFrom(mask, 0)| <= 16
  {
    hide PortsFrom;
    PortsFromEnd(mask);
    var val := mask;
    num := 0;
    var i := 0;
    while i < 16
      invariant 0 <= i <= 16 && num <= i
      invariant num + |PortsFrom(mask, i)| == |PortsFrom(mask, 0)|
      invariant val[..16 - i] == mask[i..]
    {
      PortsFromStep(mask, i);
      assert val[0] == val[..16 - i][0] == mask[i];
      assert ShiftRight(val)[..15 - i] == val[..16 - i][1..] == mask[i..][1..] == mask[i + 1..];
      if val[0] {
        num := num + 1;
      }
      val := ShiftRight(val);
      i := i + 1;
    }
  }

  // ----- the word that holds the count afterwards -----

  function Pow2(k: nat): (r: nat)
    ensures r > 0
  {
    if k == 0 then 1 else 2 * Pow2(k - 1)
  }

  /** The k low bits of n. */
  function FromNat(n: nat, k: nat): (w: seq<bool>)
    ensures |w| == k
  {
    if k == 0 then [] else [n % 2 == 1] + FromNat(n / 2, k - 1)
  }

  function ToNat(w: seq<bool>): nat {
    if w == [] then 0 else (if w[0] then 1 else 0) + 2 * ToNat(w[1..])
  }

  lemma {:induction false} WordRoundTrip(n: nat, k: nat)
    requires n < Pow2(k)
    ensures ToNat(FromNat(n, k)) == n
  {
    if k > 0 {
      WordRoundTrip(n / 2, k - 1);
      assert FromNat(n, k)[1..] == FromNat(n / 2, k - 1);
    }
  }

  /** count_bits16 as a word. */
  function ScoreWord(mask: Word16): Word16 {
    FromNat(|PortsFrom(mask, 0)|, 16)
  }

  lemma {:induction false} ScoreAtMost16(mask: Word16, i: nat)
    requires i <= 16
    ensures |PortsFrom(mask, i)| <= 16 - i
    decreases 16 - i
  {
    if i < 16 {
      ScoreAtMost16(mask, i + 1);
      PortsFromStep(mask, i);
    }
  }

  lemma ScoreReadsBack(mask: Word16)
    ensures ToNat(ScoreWord(mask)) == |PortsFrom(mask, 0)|
  {
    ScoreAtMost16(mask, 0);
    assert Pow2(5) == 32;
    Pow2Grows(5, 16);
    WordRoundTrip(|PortsFrom(mask, 0)|, 16);
  }

  lemma {:induction false} Pow2Grows(a: nat, b: nat)
    requires a <= b
    ensures Pow2(a) <= Pow2(b)
  {
    if a < b {
      Pow2Grows(a, b - 1);
    }
  }
}
