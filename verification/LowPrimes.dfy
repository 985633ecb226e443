/** The table of the primes below 512. */
module LowPrimes {
  import opened Digits
  import opened NumberTheory

  const ROW0 := [2, 3, 5, 7, 11, 13, 17, 19, 23, 29, 31, 37, 41, 43, 47, 53, 59, 61, 67, 71]
  const ROW1 := [73, 79, 83, 89, 97, 101, 103, 107, 109, 113, 127, 131, 137, 139, 149, 151, 157, 163, 167, 173]
  const ROW2 := [179, 181, 191, 193, 197, 199, 211, 223, 227, 229, 233, 239, 241, 251, 257, 263, 269, 271, 277, 281]
  const ROW3 := [283, 293, 307, 311, 313, 317, 331, 337, 347, 349, 353, 359, 367, 373, 379, 383, 389, 397, 401, 409]
  const ROW4 := [419, 421, 431, 433, 439, 443, 449, 457, 461, 463, 467, 479, 487, 491, 499, 503, 509]

  const LOW_PRIMES: seq<int> := ROW0 + ROW1 + ROW2 + ROW3 + ROW4

  ghost predicate Listed(n: int) {
    n in ROW0 || n in ROW1 || n in ROW2 || n in ROW3 || n in ROW4
  }

  lemma ListedInTable(n: int)
    ensures Listed(n) <==> n in LOW_PRIMES
  {
    InRows(n, ROW0, ROW1, ROW2, ROW3, ROW4);
  }

  lemma InRows(n: int, r0: seq<int>, r1: seq<int>, r2: seq<int>, r3: seq<int>, r4: seq<int>)
    ensures n in r0 + r1 + r2 + r3 + r4 <==> n in r0 || n in r1 || n in r2 || n in r3 || n in r4
  {}

  /** No prime below 20 divides `n` properly. */
  ghost predicate Sieved(n: int) {
    && (n % 2 == 0 ==> n == 2) && (n % 3 == 0 ==> n == 3) && (n % 5 == 0 ==> n == 5) && (n % 7 == 0 ==> n == 7)
    && (n % 11 == 0 ==> n == 11) && (n % 13 == 0 ==> n == 13) && (n % 17 == 0 ==> n == 17)
    && (n % 19 == 0 ==> n == 19)
  }

  lemma Row0(i: int)
    requires 0 <= i < |ROW0|
    ensures Sieved(ROW0[i]) && 2 <= ROW0[i] <= 509
  {}

  lemma Row1(i: int)
    requires 0 <= i < |ROW1|
    ensures Sieved(ROW1[i]) && 2 <= ROW1[i] <= 509
  {}

  lemma Row2(i: int)
    requires 0 <= i < |ROW2|
    ensures Sieved(ROW2[i]) && 2 <= ROW2[i] <= 509
  {}

  lemma Row3(i: int)
    requires 0 <= i < |ROW3|
    ensures Sieved(ROW3[i]) && 2 <= ROW3[i] <= 509
  {}

  lemma Row4(i: int)
    requires 0 <= i < |ROW4|
    ensures Sieved(ROW4[i]) && 2 <= ROW4[i] <= 509
  {}

  lemma Residue1(a: int)
    requires 0 <= a <= 16 && 1 < 30 * a + 1 <= 509 && Sieved(30 * a + 1)
    ensures Listed(30 * a + 1)
  {
    if a < 5 {
    } else if a < 9 {
    } else if a < 13 {
    } else {
    }
  }

  lemma Residue7(a: int)
    requires 0 <= a <= 16 && 1 < 30 * a + 7 <= 509 && Sieved(30 * a + 7)
    ensures Listed(30 * a + 7)
  {
    if a < 5 {
    } else if a < 9 {
    } else if a < 13 {
    } else {
    }
  }

  lemma Residue11(a: int)
    requires 0 <= a <= 16 && 1 < 30 * a + 11 <= 509 && Sieved(30 * a + 11)
    ensures Listed(30 * a + 11)
  {
    if a < 5 {
    } else if a < 9 {
    } else if a < 13 {
    } else {
    }
  }

  lemma Residue13(a: int)
    requires 0 <= a <= 16 && 1 < 30 * a + 13 <= 509 && Sieved(30 * a + 13)
    ensures Listed(30 * a + 13)
  {
    if a < 5 {
    } else if a < 9 {
    } else if a < 13 {
    } else {
    }
  }

  lemma Residue17(a: int)
    requires 0 <= a <= 16 && 1 < 30 * a + 17 <= 509 && Sieved(30 * a + 17)
    ensures Listed(30 * a + 17)
  {
    if a < 5 {
    } else if a < 9 {
    } else if a < 13 {
    } else {
    }
  }

  lemma Residue19(a: int)
    requires 0 <= a <= 16 && 1 < 30 * a + 19 <= 509 && Sieved(30 * a + 19)
    ensures Listed(30 * a + 19)
  {
    if a < 3 {
    } else if a < 6 {
    } else if a < 9 {
    } else if a < 13 {
    } else {
    }
  }

  lemma Residue23(a: int)
    requires 0 <= a <= 16 && 1 < 30 * a + 23 <= 509 && Sieved(30 * a + 23)
    ensures Listed(30 * a + 23)
  {
    if a < 5 {
    } else if a < 9 {
    } else if a < 13 {
    } else {
    }
  }

  lemma Residue29(a: int)
    requires 0 <= a <= 16 && 1 < 30 * a + 29 <= 509 && Sieved(30 * a + 29)
    ensures Listed(30 * a + 29)
  {
    if a < 5 {
    } else if a < 9 {
    } else if a < 13 {
    } else {
    }
  }

  lemma SievedListed(n: int)
    requires 2 <= n <= 509 && Sieved(n)
    ensures Listed(n)
  {
    var a, b := n / 30, n % 30;
    OtherResidues(n, a, b);
    hide Listed;
    hide Sieved;
    if b == 1 {
      Residue1(a);
    } else if b == 7 {
      Residue7(a);
    } else if b == 11 {
      Residue11(a);
    } else if b == 13 {
      Residue13(a);
    } else if b == 17 {
      Residue17(a);
    } else if b == 19 {
      Residue19(a);
    } else if b == 23 {
      Residue23(a);
    } else if b == 29 {
      Residue29(a);
    } else {
      SmallestListed(n);
    }
  }

  /** Any other residue has a factor 2, 3 or 5. */
  lemma OtherResidues(n: int, a: int, b: int)
    requires Sieved(n) && n == 30 * a + b && 0 <= b < 30
    ensures b in {1, 7, 11, 13, 17, 19, 23, 29} || n in {2, 3, 5}
  {
    var even, three, five := n % 2 == 0, n % 3 == 0, n % 5 == 0;
    assert (even ==> n == 2) && (three ==> n == 3) && (five ==> n == 5);
    hide Sieved;
    SameRest(15 * a, b, 2);
    SameRest(10 * a, b, 3);
    SameRest(6 * a, b, 5);
    assert b % 2 == 0 || b % 3 == 0 || b % 5 == 0 || b in {1, 7, 11, 13, 17, 19, 23, 29};
  }

  lemma SameRest(x: int, b: int, q: int)
    requires q > 0
    ensures (q * x + b) % q == b % q
  {
    assert q * x + b == (x + b / q) * q + b % q;
    FloorDiv(q * x + b, q, x + b / q, b % q);
  }

  lemma SmallestListed(n: int)
    requires n in {2, 3, 5}
    ensures Listed(n)
  {
    assert ROW0[0] == 2 && ROW0[1] == 3 && ROW0[2] == 5;
  }

  lemma ListedSieved(n: int)
    requires Listed(n)
    ensures 2 <= n <= 509 && Sieved(n)
  {
    hide Sieved;
    if n in ROW0 {
      var i :| 0 <= i < |ROW0| && ROW0[i] == n;
      Row0(i);
    } else if n in ROW1 {
      var i :| 0 <= i < |ROW1| && ROW1[i] == n;
      Row1(i);
    } else if n in ROW2 {
      var i :| 0 <= i < |ROW2| && ROW2[i] == n;
      Row2(i);
    } else if n in ROW3 {
      var i :| 0 <= i < |ROW3| && ROW3[i] == n;
      Row3(i);
    } else {
      var i :| 0 <= i < |ROW4| && ROW4[i] == n;
      Row4(i);
    }
  }

  /** A composite number below 23^2 has a factor below 20 from the sieve. */
  lemma SmallFactor(n: int, d: int)
    requires 2 <= d < n < 529 && n % d == 0
    ensures !Sieved(n)
  {
    var e := n / d;
    assert n == d * e;
    if d <= 22 {
      FactorSieved(d, e);
    } else {
      assert e < 23 by {
        if e >= 23 {
          MulLe(23, d, e);
          MulLe(23, e, 23);
        }
      }
      assert e >= 2 by {
        if e < 2 {
          MulLe(e, 1, d);
        }
      }
      FactorSieved(e, d);
    }
  }

  lemma FactorSieved(d: int, e: int)
    requires 2 <= d <= 22 && d < d * e
    ensures !Sieved(d * e)
  {
    SieveHit(d, if d % 2 == 0 then 2 else if d % 3 == 0 then 3 else d, e, d * e);
  }

  /** A number above `d` that a prime up to 19 divides, as it divides `d`, is sieved out. */
  lemma SieveHit(d: int, q: int, e: int, n: int)
    requires 2 <= d <= 22 && n == d * e && d < n && (q == 2 || q == 3 || q == 5 || q == 7 || q == 11 || q == 13 || q == 17 || q == 19)
    requires d % q == 0
    ensures !Sieved(n)
  {
    assert n % q == 0 by {
      Multiple(q, d / q, e, n);
    }
  }

  lemma Multiple(q: int, k: int, e: int, n: int)
    requires q > 0 && n == (q * k) * e
    ensures n % q == 0
  {
    assert (q * k) * e == (k * e) * q;
    MulUnit(q);
    FloorDiv((k * e) * q, q, k * e, 0);
  }

  lemma SievedPrime(n: int)
    requires 2 <= n < 529
    ensures Sieved(n) <==> Prime(n)
  {
    if Sieved(n) {
      forall d | 2 <= d < n
        ensures !Divides(d, n)
      {
        if n % d == 0 {
          SmallFactor(n, d);
        }
      }
    }
    if Prime(n) {
      NoDivisor(n, 2);
      NoDivisor(n, 3);
      NoDivisor(n, 5);
      NoDivisor(n, 7);
      NoDivisor(n, 11);
      NoDivisor(n, 13);
      NoDivisor(n, 17);
      NoDivisor(n, 19);
    }
  }

  lemma NoDivisor(n: int, q: int)
    requires Prime(n) && q >= 2
    ensures n % q == 0 ==> n == q
  {
    if n % q == 0 && n != q {
      assert q <= n;
      assert Divides(q, n);
    }
  }

  /** The table holds exactly the primes up to its last entry. */
  lemma TableIsPrimes(n: int)
    ensures n in LOW_PRIMES <==> Prime(n) && n <= 509
  {
    ListedInTable(n);
    if Listed(n) {
      ListedSieved(n);
      SievedPrime(n);
    }
    if Prime(n) && n <= 509 {
      SievedPrime(n);
      SievedListed(n);
    }
  }

  // ---- their order

  ghost predicate Rises(s: seq<int>) {
    forall i, j :: 0 <= i < j < |s| ==> s[i] < s[j]
  }

  /** Each step is enough. */
  lemma StepsRise(s: seq<int>)
    requires forall i :: 0 < i < |s| ==> s[i - 1] < s[i]
    ensures Rises(s)
  {
    forall i, j | 0 <= i < j < |s|
      ensures s[i] < s[j]
    {
      StepsReach(s, i, j);
    }
  }

  lemma {:induction false} StepsReach(s: seq<int>, i: nat, j: nat)
    requires i < j < |s| && forall i :: 0 < i < |s| ==> s[i - 1] < s[i]
    ensures s[i] < s[j]
    decreases j
  {
    assert s[j - 1] < s[j];
    if i < j - 1 {
      StepsReach(s, i, j - 1);
    }
  }

  lemma RisesJoined(s: seq<int>, t: seq<int>)
    requires Rises(s) && Rises(t) && s != [] && t != [] && s[|s| - 1] < t[0]
    ensures Rises(s + t)
  {
    forall i, j | 0 <= i < j < |s + t|
      ensures (s + t)[i] < (s + t)[j]
    {
      if i < |s| <= j {
        assert s[i] <= s[|s| - 1] && t[0] <= t[j - |s|];
      }
    }
  }

  /** So the first entries are the first primes. */
  lemma TableRises()
    ensures Rises(LOW_PRIMES) && |LOW_PRIMES| == 97 && LOW_PRIMES[0] == 2
  {
    StepsRise(ROW0);
    StepsRise(ROW1);
    StepsRise(ROW2);
    StepsRise(ROW3);
    StepsRise(ROW4);
    var r0, r1, r2, r3, r4 := ROW0, ROW1, ROW2, ROW3, ROW4;
    assert |r0| == |r1| == |r2| == |r3| == 20 && |r4| == 17;
    assert r0[19] < r1[0] && r1[19] < r2[0] && r2[19] < r3[0] && r3[19] < r4[0] && r0[0] == 2;
    assert LOW_PRIMES == r0 + r1 + r2 + r3 + r4;
    hide *;
    RowsJoined(r0, r1, r2, r3, r4);
  }

  lemma RowsJoined(r0: seq<int>, r1: seq<int>, r2: seq<int>, r3: seq<int>, r4: seq<int>)
    requires Rises(r0) && Rises(r1) && Rises(r2) && Rises(r3) && Rises(r4)
    requires |r0| == |r1| == |r2| == |r3| == 20 && |r4| == 17
    requires r0[19] < r1[0] && r1[19] < r2[0] && r2[19] < r3[0] && r3[19] < r4[0]
    ensures Rises(r0 + r1 + r2 + r3 + r4) && |r0 + r1 + r2 + r3 + r4| == 97 && (r0 + r1 + r2 + r3 + r4)[0] == r0[0]
  {
    hide Rises;
    RisesJoined(r0, r1);
    RisesJoined(r0 + r1, r2);
    RisesJoined(r0 + r1 + r2, r3);
    RisesJoined(r0 + r1 + r2 + r3, r4);
  }
}
