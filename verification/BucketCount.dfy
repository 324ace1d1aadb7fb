// How utils/hashtable.c picks the number of buckets: isProbablePrime and
// calculateIdealNumOfBuckets with the default ideal ratio of 3 elements a bucket.
module BucketCount {

  /** i divides n, by repeated subtraction. */
  predicate Divides(i: nat, n: nat)
    requires i > 0
  {
    if n < i then n == 0 else Divides(i, n - i)
  }

  /** Repeated subtraction agrees with the remainder that the code tests. */
  lemma {:induction false} DividesIffRemainder(i: nat, n: nat)
    requires i > 0
    ensures Divides(i, n) <==> n % i == 0
    decreases n
  {
    if n >= i {
      DividesIffRemainder(i, n - i);
      DivModUnique(n, i, (n - i) / i + 1, (n - i) % i);
    }
  }

  /** No odd number in 3..49 divides n, n itself apart. */
  ghost predicate ProbablyPrime(n: nat) {
    forall i: nat :: 3 <= i < 51 && i % 2 == 1 && i != n ==> !Divides(i, n)
  }

  method RemainderIsZero(n: nat, i: nat) returns (b: bool)
    requires i > 0
    ensures b <==> Divides(i, n)
  {
    DividesIffRemainder(i, n);
    b := n % i == 0;
  }

  method IsProbablePrime(oddNumber: nat) returns (r: bool)
    requires oddNumber > 0
    ensures r <==> ProbablyPrime(oddNumber)
  {
    var i := 3;
    while i < 51
      invariant 3 <= i <= 51 && i % 2 == 1
      invariant forall j: nat :: 3 <= j < i && j % 2 == 1 ==> j != oddNumber && !Divides(j, oddNumber)
      decreases 51 - i
    {
      if oddNumber == i {
        return true;
      }
      var composite := RemainderIsZero(oddNumber, i);
      if composite {
        return false;
      }
      i := i + 2;
    }
    return true;
  }

  /** Where the search starts: n / 3 made odd, but at least 5. */
  function FirstCandidate(numOfElements: nat): (c: nat)
    ensures c >= 5 && c % 2 == 1 && c >= numOfElements / 3
    ensures forall d: nat :: 5 <= d && numOfElements / 3 <= d && d % 2 == 1 ==> c <= d
  {
    var ideal := numOfElements / 3;
    if ideal < 5 then 5 else if ideal % 2 == 0 then ideal + 1 else ideal
  }

  // The product of the odd numbers 3, 5, ..., 49.
  const ODD_PRODUCT: nat := 58435841445947272053455474390625

  lemma DividesProduct(i: nat)
    requires 3 <= i < 51 && i % 2 == 1
    ensures 58435841445947272053455474390625 % i == 0
  {
    if i == 3 {} else if i == 5 {} else if i == 7 {} else if i == 9 {} else if i == 11 {}
    else if i == 13 {} else if i == 15 {} else if i == 17 {} else if i == 19 {} else if i == 21 {}
    else if i == 23 {} else if i == 25 {} else if i == 27 {} else if i == 29 {} else if i == 31 {}
    else if i == 33 {} else if i == 35 {} else if i == 37 {} else if i == 39 {} else if i == 41 {}
    else if i == 43 {} else if i == 45 {} else if i == 47 {} else if i == 49 {}
  }

  lemma RemainderOne(i: nat, q: int, m: int)
    requires i > 1 && m == i * q
    ensures (m + 1) % i == 1
  {
    assert m + 1 == q * i + 1;
    DivModUnique(m + 1, i, q, 1);
  }

  lemma DivModUnique(x: int, i: nat, q: int, r: int)
    requires i > 0 && x == q * i + r && 0 <= r < i
    ensures x / i == q && x % i == r
  {
    var d := x / i - q;
    assert x == (x / i) * i + x % i;
    assert d * i == r - x % i;
    MulGrows(d, i);
  }

  lemma MulGrows(d: int, i: int)
    requires i >= 0
    ensures d >= 1 ==> d * i >= i
    ensures d <= -1 ==> d * i <= -i
  {
    if d >= 1 {
      assert (d - 1) * i >= 0;
    } else if d <= -1 {
      assert (-d - 1) * i >= 0;
    }
  }

  /** 2 * product * c + 1 leaves remainder 1 for each trial divisor, so the search cannot pass it. */
  lemma Beacon(c: nat) returns (b: nat)
    requires c > 0
    ensures b >= c && b % 2 == 1 && ProbablyPrime(b)
  {
    hide Divides;
    var m := ODD_PRODUCT * c;
    assert m >= c;
    b := 2 * m + 1;
    forall i: nat | 3 <= i < 51 && i % 2 == 1
      ensures !Divides(i, b)
    {
      BeaconRemainder(c, m, i);
    }
  }

  lemma BeaconRemainder(c: nat, m: nat, i: nat)
    requires 3 <= i < 51 && i % 2 == 1 && m == ODD_PRODUCT * c
    ensures !Divides(i, 2 * m + 1)
  {
    DividesProduct(i);
    var q := ODD_PRODUCT / i;
    assert ODD_PRODUCT == i * q;
    assert m == (i * q) * c == i * (q * c);
    RemainderOne(i, 2 * (q * c), 2 * m);
    DividesIffRemainder(i, 2 * m + 1);
  }

  /** The least odd number that passes the test and is at least 5 and a third of the elements. */
  ghost predicate IsIdeal(numOfElements: nat, r: nat) {
    && r % 2 == 1 && r >= 5 && r >= numOfElements / 3
    && ProbablyPrime(r)
    && forall c: nat :: 5 <= c < r && numOfElements / 3 <= c && c % 2 == 1 ==> !ProbablyPrime(c)
  }

  lemma {:induction false} IdealFrom(numOfElements: nat, c: nat, limit: nat) returns (r: nat)
    requires FirstCandidate(numOfElements) <= c <= limit && c % 2 == 1 == limit % 2 && ProbablyPrime(limit)
    requires forall d: nat :: FirstCandidate(numOfElements) <= d < c && d % 2 == 1 ==> !ProbablyPrime(d)
    ensures IsIdeal(numOfElements, r)
    decreases limit - c
  {
    if ProbablyPrime(c) {
      r := c;
    } else {
      r := IdealFrom(numOfElements, c + 2, limit);
    }
  }

  lemma IdealExists(numOfElements: nat)
    ensures exists r: nat :: IsIdeal(numOfElements, r)
  {
    var limit := Beacon(FirstCandidate(numOfElements));
    var r := IdealFrom(numOfElements, FirstCandidate(numOfElements), limit);
  }

  /** The number of buckets the search settles on, whatever the number of elements. */
  ghost function Ideal(numOfElements: nat): (r: nat)
    ensures IsIdeal(numOfElements, r) && r >= 5 && numOfElements <= 3 * r + 2
  {
    IdealExists(numOfElements);
    var r: nat :| IsIdeal(numOfElements, r);
    r
  }

  method CalculateIdealNumOfBuckets(numOfElements: nat) returns (r: nat)
    ensures r == Ideal(numOfElements)
    ensures IsIdeal(numOfElements, r)
    ensures r < 53 * 53 ==> Prime(r)
  {
    r := numOfElements / 3;
    if r < 5 {
      r := 5;
    } else if r % 2 == 0 {
      r := r + 1;
    }
    ghost var limit := Beacon(FirstCandidate(numOfElements));
    var probable := IsProbablePrime(r);
    while !probable
      invariant FirstCandidate(numOfElements) <= r <= limit && r % 2 == 1
      invariant probable <==> ProbablyPrime(r)
      invariant forall c: nat :: FirstCandidate(numOfElements) <= c < r && c % 2 == 1 ==> !ProbablyPrime(c)
      decreases limit - r
    {
      r := r + 2;
      probable := IsProbablePrime(r);
    }
    if r < 53 * 53 {
      TestIsExactBelow2809(r);
    }
  }

  ghost predicate Prime(n: nat) {
    n >= 2 && forall d: nat :: 2 <= d < n ==> !Divides(d, n)
  }

  /** Below 53 * 53 the trial divisors decide primality of an odd number. */
  lemma TestIsExactBelow2809(n: nat)
    requires 3 <= n < 53 * 53 && n % 2 == 1
    ensures ProbablyPrime(n) <==> Prime(n)
  {
    if ProbablyPrime(n) {
      forall d: nat | 2 <= d < n
        ensures !Divides(d, n)
      {
        DividesIffRemainder(d, n);
        if Divides(d, n) {
          var e := n / d;
          assert n == d * e;
          ProperFactor(n, d, e);
        }
      }
    } else {
      var i: nat :| 3 <= i < 51 && i % 2 == 1 && i != n && Divides(i, n);
    }
  }

  lemma ProperFactor(n: nat, d: nat, e: nat)
    requires 3 <= n < 53 * 53 && n % 2 == 1 && 2 <= d < n && n == d * e
    ensures !ProbablyPrime(n)
  {
    ProductBounds(d, e);
    if d < 53 {
      SmallFactor(n, d, e);
    } else {
      SmallFactor(n, e, d);
    }
  }

  lemma ProductBounds(d: nat, e: nat)
    requires d >= 2
    ensures e <= 1 ==> d * e <= d
    ensures e >= 1 ==> d * e > e
    ensures d >= 53 && e >= 53 ==> d * e >= 53 * 53
  {
    if e >= 1 {
      assert d * e >= 2 * e;
    }
    if d >= 53 && e >= 53 {
      assert d * e >= 53 * e;
    }
  }

  lemma EvenProduct(d: nat, e: nat)
    ensures d % 2 == 0 ==> (d * e) % 2 == 0
  {
    if d % 2 == 0 {
      assert d * e == 2 * ((d / 2) * e) by {
        assert d == 2 * (d / 2);
      }
    }
  }

  lemma SmallFactor(n: nat, d: nat, e: nat)
    requires n % 2 == 1 && n == d * e && 2 <= d < 53 && d < n
    ensures !ProbablyPrime(n)
  {
    EvenProduct(d, e);
    DivModUnique(n, d, e, 0);
    DividesIffRemainder(d, n);
    if d == 51 {
      assert n == 3 * (17 * e);
      DividesIffRemainder(3, n);
    }
  }
}
