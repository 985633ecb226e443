/** The probabilistic primality test: table lookup, batched trial division, Miller-Rabin rounds. */
module Primality {
  import opened JsNumber
  import opened Digits
  import opened BigIntegers
  import opened Shifts
  import opened Multiply
  import opened Congruence
  import opened Reducers
  import opened Reductions
  import opened Montgomery
  import opened Exponents
  import opened SlidingWindow
  import opened Windows
  import opened NumberTheory
  import opened LowPrimes
  import Compare

  // ---- the remainder by a small number

  /** The number written by the digits from `i` up, sign included. */
  ghost function High(a: Cells, t: nat, s: int, i: nat): int
    requires i <= t
  {
    Val(a, i, t - i) + Mul(s, B(t - i))
  }

  lemma HighStep(a: Cells, t: nat, s: int, i: nat)
    requires i < t
    ensures High(a, t, s, i) == Digit(a, i) + DV * High(a, t, s, i + 1)
  {
    ValLow(a, i, t - i - 1);
    BStep(t - i - 1);
    hide Val;
    hide B;
    MulConst(DV, s, B(t - i - 1));
  }

  lemma HighEnds(a: Cells, t: nat, s: int)
    ensures High(a, t, s, t) == s && High(a, t, s, 0) == ValueOf(a, t, s)
  {
    NoDigit(a, t);
    MulUnit(s);
  }

  lemma HornerStep(d: int, r: int, v: int, w: int, n: int)
    requires n > 0 && d == Mod(DV, n) && Cong(r, v, n)
    ensures Cong(d * r + w, w + DV * v, n)
  {
    hide Mod;
    hide Mul;
    CongMod(DV, n);
    CongMul(d, DV, r, v, n);
    CongRefl(w, n);
    CongAdd(Mul(d, r), Mul(DV, v), w, w, n);
    MulIsProduct(d, r);
    MulDV(v);
  }

  /** crypto.js `bnpModInt` */
  method ModInt(x: BigInteger, n: int) returns (r: int)
    requires x.Valid() && n < 0x400_0000
    ensures n <= 0 ==> r == 0
    ensures n > 0 ==> r == Mod(x.Value(), n)
  {
    if n <= 0 {
      return 0;
    }
    var d := DV % n;
    r := if x.s < 0 then n - 1 else 0;
    HighEnds(x.arr, x.t, x.s);
    SignWord(x.s, r, n);
    hide High;
    hide ValueOf;
    if x.t > 0 {
      if d == 0 {
        HighStep(x.arr, x.t, x.s, 0);
        hide Mod;
        hide Cong;
        LowestDigit(x.arr[0], High(x.arr, x.t, x.s, 1), n);
        r := x.arr[0] % n;
      } else {
        var i := x.t - 1;
        while i >= 0
          invariant -1 <= i < x.t && 0 <= r < n && Cong(r, High(x.arr, x.t, x.s, i + 1), n)
        {
          HighStep(x.arr, x.t, x.s, i);
          HornerStep(d, r, High(x.arr, x.t, x.s, i + 1), x.arr[i], n);
          CongMod(d * r + x.arr[i], n);
          r := (d * r + x.arr[i]) % n;
          i := i - 1;
        }
      }
    }
    CongSmall(r, x.Value(), n);
  }

  lemma SignWord(s: int, r: int, n: int)
    requires n > 0 && -1 <= s <= 0 && r == if s < 0 then n - 1 else 0
    ensures 0 <= r < n && Cong(r, s, n)
  {
    MulUnit(n);
    hide Mul;
    CongIntro(r, s, -s, n);
  }

  lemma LowestDigit(w: int, v: int, n: int)
    requires n > 0 && DV % n == 0
    ensures Cong(w % n, w + DV * v, n) && 0 <= w % n < n
  {
    var k := DV / n;
    assert DV == k * n;
    assert DV * v == (v * k) * n;
    CongIntro(w + DV * v, w, v * k, n);
    CongMod(w, n);
  }

  // ---- the lowest bit that is set

  /** `2^k` is the highest power of two that divides `v`. */
  ghost predicate LowestBit(v: int, k: nat) {
    exists odd: int :: v == Mul(odd, Pow2(k)) && odd % 2 == 1
  }

  lemma LowestBitIntro(v: int, odd: int, k: nat)
    requires v == Mul(odd, Pow2(k)) && odd % 2 == 1
    ensures LowestBit(v, k)
  {}

  lemma {:induction false} LowestBitUnique(v: int, j: nat, k: nat)
    requires LowestBit(v, j) && LowestBit(v, k)
    ensures j == k
    decreases j
  {
    var o :| v == Mul(o, Pow2(j)) && o % 2 == 1;
    var p :| v == Mul(p, Pow2(k)) && p % 2 == 1;
    if j == 0 || k == 0 {
      OddNotEven(o, p, j, k);
    } else {
      Pow2Twice(j - 1);
      Pow2Twice(k - 1);
      MulConst(2, o, Pow2(j - 1));
      MulConst(2, p, Pow2(k - 1));
      var h := Mul(o, Pow2(j - 1));
      LowestBitIntro(h, o, j - 1);
      LowestBitIntro(h, p, k - 1);
      LowestBitUnique(h, j - 1, k - 1);
    }
  }

  lemma OddNotEven(o: int, p: int, j: nat, k: nat)
    requires Mul(o, Pow2(j)) == Mul(p, Pow2(k)) && o % 2 == 1 && p % 2 == 1 && (j == 0 || k == 0)
    ensures j == k
  {
    MulUnit(o);
    MulUnit(p);
    if k > 0 {
      EvenMul(p, k);
    }
    if j > 0 {
      EvenMul(o, j);
    }
  }

  lemma EvenMul(o: int, k: nat)
    requires k > 0
    ensures Mul(o, Pow2(k)) % 2 == 0
  {
    hide *;
    Pow2Twice(k - 1);
    MulConst(2, o, Pow2(k - 1));
    var h := Mul(o, Pow2(k - 1));
    assert Mul(o, Pow2(k)) == 2 * h;
  }

  /** crypto.js `lbit` */
  method LBit(x0: nat) returns (r: int)
    requires x0 < TWO31
    ensures x0 == 0 ==> r == -1
    ensures x0 > 0 ==> 0 <= r <= 31 && LowestBit(x0, r)
  {
    if x0 == 0 {
      return -1;
    }
    Powers();
    MulUnit(x0);
    hide Pow2;
    hide BitsLeft;
    var x := x0;
    r := 0;
    BitsStart(x0);
    x, r := LBitStep(x0, x, r, 16);
    x, r := LBitStep(x0, x, r, 8);
    x, r := LBitStep(x0, x, r, 4);
    x, r := LBitStep(x0, x, r, 2);
    LBitEnd(x0, x, r);
    if Mask(x, 2) == 0 {
      r := r + 1;
    }
  }

  /** `x` is what is left of `x0` without `r` zero bits, and among its last `n` bits one is set. */
  ghost predicate BitsLeft(x0: int, x: int, r: nat, n: nat) {
    0 < x <= x0 < TWO31 && x0 == x * Pow2(r) && x % Pow2(n) != 0
  }

  lemma BitsStart(x0: int)
    requires 0 < x0 < TWO31
    ensures BitsLeft(x0, x0, 0, 32)
  {
    Powers();
  }

  /** One line of `lbit`. */
  method LBitStep(x0: int, x: int, r: nat, n: nat) returns (x': int, r': int)
    requires BitsLeft(x0, x, r, 2 * n)
    ensures r' in {r, r + n} && BitsLeft(x0, x', r', n)
  {
    x', r' := x, r;
    if Mask(x, Pow2(n)) == 0 {
      DropBits(x0, x, r, n);
      x' := Sar(x, Pow2(n));
      r' := r + n;
    }
  }

  lemma LBitEnd(x0: int, x: int, r: nat)
    requires BitsLeft(x0, x, r, 2)
    ensures x % 2 == 0 ==> LowestBit(x0, r + 1)
    ensures x % 2 == 1 ==> LowestBit(x0, r)
  {
    Powers();
    Pow2Twice(r);
    hide Pow2;
    if x % 2 == 0 {
      assert x == 2 * (x / 2) && (x / 2) % 2 == 1;
      assert (2 * (x / 2)) * Pow2(r) == (x / 2) * (2 * Pow2(r));
      LowestBitIntro(x0, x / 2, r + 1);
    } else {
      LowestBitIntro(x0, x, r);
    }
  }

  lemma DropBits(x0: int, x: int, r: nat, n: nat)
    requires BitsLeft(x0, x, r, 2 * n) && x % Pow2(n) == 0
    ensures BitsLeft(x0, x / Pow2(n), r + n, n)
  {
    Pow2Add(r, n);
    Pow2Add(n, n);
    assert 2 * n == n + n;
    hide Pow2;
    var p, q := Pow2(n), Pow2(r);
    DroppedPart(x, p);
    Regroup(x / p, p, q);
  }

  lemma Regroup(y: int, p: int, q: int)
    ensures (y * p) * q == y * (q * p)
  {}

  lemma DroppedPart(x: int, p: int)
    requires x > 0 && p > 0 && x % p == 0 && p * p > 0 && x % (p * p) != 0
    ensures 0 < x / p <= x && x == x / p * p && (x / p) % p != 0
  {
    var y := x / p;
    assert x == y * p;
    if y <= 0 {
      MulLe(y, 0, p);
    }
    MulLe(1, p, y);
    if y % p == 0 {
      assert y == (y / p) * p;
      assert x == (y / p) * (p * p);
      FloorDiv(x, p * p, y / p, 0);
    }
  }

  /** crypto.js `bnGetLowestSetBit`: -1 for zero. */
  method GetLowestSetBit(x: BigInteger) returns (k: int)
    requires x.Valid()
    ensures k >= -1 && (k == -1 <==> x.Value() == 0) && (k >= 0 ==> LowestBit(x.Value(), k))
  {
    var i := 0;
    NoDigit(x.arr, 0);
    hide Val;
    hide B;
    hide Mul;
    hide Pow2;
    hide LowestBit;
    while i < x.t
      invariant 0 <= i <= x.t && Val(x.arr, 0, i) == 0
    {
      if x.arr[i] != 0 {
        var l := LBit(x.arr[i]);
        k := i * DB + l;
        FirstDigitBit(x.arr, x.t, x.s, i, l);
        return;
      }
      ValStep(x.arr, 0, i);
      MulUnit(B(i));
      i := i + 1;
    }
    MulUnit(B(x.t));
    Pow2Digits(x.t);
    if x.s < 0 {
      k := x.t * DB;
      LowestBitIntro(x.Value(), -1, x.t * DB);
      LowestBitNonZero(x.Value(), k);
    } else {
      k := -1;
    }
  }

  lemma LowestBitNonZero(v: int, k: nat)
    requires LowestBit(v, k)
    ensures v != 0
  {
    var o :| v == Mul(o, Pow2(k)) && o % 2 == 1;
    if o >= 1 {
      MulLe(1, o, Pow2(k));
    } else {
      MulLe(o, -1, Pow2(k));
    }
    MulUnit(Pow2(k));
  }

  lemma FirstDigitBit(a: Cells, t: nat, s: int, i: nat, l: nat)
    requires i < t && IsDigits(a, 0, t) && -1 <= s <= 0 && Val(a, 0, i) == 0 && a[i] > 0 && LowestBit(a[i], l)
    ensures LowestBit(ValueOf(a, t, s), i * DB + l) && ValueOf(a, t, s) != 0
  {
    var o :| a[i] == Mul(o, Pow2(l)) && o % 2 == 1;
    ShortBit(a[i], o, l);
    HighShift(a, t, s, i);
    HighStep(a, t, s, i);
    Pow2Digits(i);
    Pow2Add(28 * i, l);
    SplitBits(l);
    Pow2Twice(DB - l - 1);
    hide Val;
    hide B;
    hide Pow2;
    hide High;
    hide ValueOf;
    hide LowestBit;
    var h, v := High(a, t, s, i + 1), High(a, t, s, i);
    OddMultiple(o, Pow2(l), Pow2(DB - l - 1), h, v);
    var odd := o + (2 * Pow2(DB - l - 1)) * h;
    assert Pow2(i * DB + l) == Mul(B(i), Pow2(l));
    hide Mul;
    MulComm(B(i), v);
    MulAssoc(odd, Pow2(l), B(i));
    MulComm(Pow2(l), B(i));
    LowestBitIntro(ValueOf(a, t, s), odd, i * DB + l);
    LowestBitNonZero(ValueOf(a, t, s), i * DB + l);
  }

  lemma HighShift(a: Cells, t: nat, s: int, i: nat)
    requires i < t && Val(a, 0, i) == 0
    ensures ValueOf(a, t, s) == Mul(B(i), High(a, t, s, i))
  {
    ValSplit(a, 0, i, t - i);
    BAdd(i, t - i);
    hide Val;
    hide B;
    hide Mul;
    MulAssoc(s, B(i), B(t - i));
    MulComm(s, B(i));
    MulAssoc(B(i), s, B(t - i));
    MulAdd(Val(a, i, t - i), Mul(s, B(t - i)), B(i));
  }

  lemma OddMultiple(o: int, p: int, c: int, h: int, v: int)
    requires v == Mul(o, p) + DV * h && p * (2 * c) == DV && o % 2 == 1
    ensures v == Mul(o + (2 * c) * h, p) && (o + (2 * c) * h) % 2 == 1
  {
    assert ((2 * c) * h) * p == (p * (2 * c)) * h;
    assert (2 * c) * h == 2 * (c * h);
  }

  lemma ShortBit(d: int, o: int, l: nat)
    requires 0 < d < DV && d == Mul(o, Pow2(l))
    ensures l < DB
  {
    if l >= DB {
      Pow2Monotonic(DB, l);
      Powers();
      if o <= 0 {
        MulLe(o, 0, Pow2(l));
      } else {
        MulLe(1, o, Pow2(l));
      }
      MulUnit(Pow2(l));
    }
  }

  /** crypto.js `bnShiftRight` */
  method ShiftRight(x: BigInteger, n: int) returns (r: BigInteger)
    requires x.Valid()
    ensures fresh(r) && r.Normal()
    ensures n >= 0 ==> r.Value() == Div(x.Value(), Pow2(n))
    ensures n < 0 ==> r.Value() == Mul(x.Value(), Pow2(-n))
  {
    r := new BigInteger();
    if n < 0 {
      LShiftTo(x, -n, r);
    } else {
      RShiftTo(x, n, r);
    }
  }

  /** crypto.js `bnSubtract` */
  method Subtract(x: BigInteger, a: BigInteger) returns (r: BigInteger)
    requires x.Valid() && a.Valid()
    ensures fresh(r) && r.Normal() && r.Value() == x.Value() - a.Value()
  {
    r := new BigInteger();
    x.SubTo(a, r);
  }

  // ---- Miller-Rabin

  /** `a` raised to `r` and squared `j` times, modulo `n`. */
  ghost function Squared(a: int, r: nat, j: nat, n: int): int
    requires n > 0
  {
    Mod(Power(a, r * Pow2(j)), n)
  }

  /** The base `a` does not show that `n` is composite, where n - 1 = r 2^k. */
  ghost predicate Passes(n: int, a: int, r: nat, k: nat)
    requires n > 0
  {
    Squared(a, r, 0, n) == 1 || exists j :: 0 <= j < k && Squared(a, r, j, n) == n - 1
  }

  lemma SquaredStep(a: int, r: nat, j: nat, n: int)
    requires n > 0
    ensures Squared(a, r, j + 1, n) == Mod(Power(Squared(a, r, j, n), 2), n)
    ensures Squared(a, r, j + 1, n) == Mod(Mul(Squared(a, r, j, n), Squared(a, r, j, n)), n)
  {
    var e := r * Pow2(j);
    assert r * Pow2(j + 1) == 2 * e by {
      Pow2Twice(j);
    }
    PowerDouble(a, e);
    CongMod(Power(a, e), n);
    var y := Squared(a, r, j, n);
    PowerDouble(y, 1);
    PowerOne(y);
    hide Power;
    hide Mul;
    hide Pow2;
    CongMul(y, Power(a, e), y, Power(a, e), n);
  }

  /** After a 1, only 1s. */
  lemma {:induction false} OnesStay(a: int, r: nat, i: nat, j: nat, n: int)
    requires n > 1 && i <= j && Squared(a, r, i, n) == 1
    ensures Squared(a, r, j, n) == 1
  {
    if i < j {
      OnesStay(a, r, i, j - 1, n);
      SquaredStep(a, r, j - 1, n);
      MulUnit(1);
      FloorDiv(1, n, 0, 1) by {
        MulUnit(n);
      }
    }
  }

  /** Going down from a 1: for a prime, the first value that is not 1 is -1. */
  lemma {:induction false} Descent(n: int, a: int, r: nat, m: nat)
    requires Prime(n) && Squared(a, r, m, n) == 1
    ensures Squared(a, r, 0, n) == 1 || exists j :: 0 <= j < m && Squared(a, r, j, n) == n - 1
  {
    if m > 0 {
      var y := Squared(a, r, m - 1, n);
      SquaredStep(a, r, m - 1, n);
      MulUnit(n);
      FloorDiv(1, n, 0, 1);
      RootsOfOne(n, y);
      if Cong(y, 1, n) {
        CongSmall(y, 1, n);
        Descent(n, a, r, m - 1);
      } else {
        CongSmall(y, -1, n);
        FloorDiv(-1, n, -1, n - 1);
      }
    }
  }

  /** No base shows that a prime is composite, as long as the prime does not divide it. */
  lemma PrimePasses(n: int, a: int, r: nat, k: nat)
    requires Prime(n) && !Divides(n, a) && n - 1 == r * Pow2(k)
    ensures Passes(n, a, r, k)
  {
    Fermat(n, a);
    MulUnit(n);
    FloorDiv(1, n, 0, 1);
    Descent(n, a, r, k);
  }

  /** The three ways in which a round ends. */
  lemma RoundAccepts(n: int, a: int, r: nat, k: nat, j: nat)
    requires n > 0 && (Squared(a, r, 0, n) == 1 || (j < k && Squared(a, r, j, n) == n - 1))
    ensures Passes(n, a, r, k)
  {}

  lemma RoundRejectsEnd(n: int, a: int, r: nat, k: nat)
    requires n > 0 && Squared(a, r, 0, n) != 1
    requires forall i :: 0 <= i < k ==> Squared(a, r, i, n) != n - 1
    ensures !Passes(n, a, r, k)
  {}

  lemma RoundRejectsOne(n: int, a: int, r: nat, k: nat, j: nat)
    requires n > 2 && Squared(a, r, 0, n) != 1 && Squared(a, r, j, n) == 1
    requires forall i :: 0 <= i < j ==> Squared(a, r, i, n) != n - 1
    ensures !Passes(n, a, r, k)
  {
    forall i | 0 <= i < k
      ensures Squared(a, r, i, n) != n - 1
    {
      if i >= j {
        OnesStay(a, r, j, i, n);
      }
    }
  }

  /** `x.compareTo(a) == 0` */
  method Same(x: BigInteger, a: BigInteger) returns (same: bool)
    requires x.Normal() && a.Normal()
    ensures same <==> x.Value() == a.Value()
  {
    var c := x.CompareTo(a);
    same := c == 0;
    Compare.CompareOrders(x.arr, x.t, x.s, a.arr, a.t, a.s);
    Compare.Bounds(x.arr, x.t, x.s);
    Compare.Bounds(a.arr, a.t, a.s);
    hide Val;
    hide B;
    hide ValueOf;
    if x.s < 0 && a.s < 0 && x.t != a.t && x.Value() == a.Value() {
      Compare.NormalUnique(x.arr, x.t, x.s, a.arr, a.t, a.s);
    }
  }

  /** One round of `bnpMillerRabin`. */
  method Round(x: BigInteger, n1: BigInteger, one: BigInteger, r: BigInteger, k: nat, a: BigInteger) returns (passed: bool)
    requires x.Normal() && x.s == 0 && x.Value() > 2 && x.Value() % 2 == 1
    requires n1.Normal() && n1.Value() == x.Value() - 1 && one.Normal() && one.Value() == 1
    requires r.Normal() && r.s == 0 && r.Value() > 0 && a.Normal() && k >= 1
    ensures r.Value() >= 0 && (passed <==> Passes(x.Value(), a.Value(), r.Value(), k))
  {
    ghost var n, av, rv := x.Value(), a.Value(), r.Value();
    Compare.Bounds(x.arr, x.t, x.s);
    assert rv * Pow2(0) == rv;
    hide Val;
    hide B;
    hide ValueOf;
    hide Passes;
    hide Mod;
    hide Power;
    hide Pow2;
    var y := ModPow(a, r, x);
    var isOne := Same(y, one);
    var isN1 := Same(y, n1);
    assert y.Value() == Squared(av, rv, 0, n);
    if !isOne && !isN1 {
      passed := RoundLoop(x, n1, one, k, y, av, rv);
    } else {
      passed := true;
      RoundAccepts(n, av, rv, k, 0);
    }
  }

  method RoundLoop(x: BigInteger, n1: BigInteger, one: BigInteger, k: nat, y0: BigInteger, ghost a: int, ghost r: nat)
    returns (passed: bool)
    requires x.Normal() && x.s == 0 && x.t > 0 && x.Value() > 2
    requires n1.Normal() && n1.Value() == x.Value() - 1 && one.Normal() && one.Value() == 1
    requires y0.Normal() && y0.Value() == Squared(a, r, 0, x.Value()) && k >= 1
    requires y0.Value() != 1 && y0.Value() != n1.Value()
    ensures passed <==> Passes(x.Value(), a, r, k)
  {
    ghost var n := x.Value();
    hide Val;
    hide B;
    hide ValueOf;
    hide Passes;
    hide Mod;
    hide Power;
    hide Squared;
    var y, isN1 := y0, false;
    var j := 1;
    while j < k && !isN1
      invariant 1 <= j <= k && y.Normal() && y.Value() == Squared(a, r, j - 1, n)
      invariant isN1 <==> y.Value() == n - 1
      invariant forall i :: 0 <= i < j - 1 ==> Squared(a, r, i, n) != n - 1
    {
      j := j + 1;
      SquaredStep(a, r, j - 2, n);
      y := ModPowInt(y, 2, x);
      var isOne := Same(y, one);
      if isOne {
        RoundRejectsOne(n, a, r, k, j - 1);
        return false;
      }
      isN1 := Same(y, n1);
    }
    passed := isN1;
    if isN1 {
      RoundAccepts(n, a, r, k, j - 1);
    } else {
      RoundRejectsEnd(n, a, r, k);
    }
  }

  /** The exponent of two in `m`, and the odd factor that is left. */
  ghost function Twos(m: nat): nat
    requires m > 0
  {
    if m % 2 == 1 then 0 else 1 + Twos(m / 2)
  }

  ghost function OddPart(m: nat): nat
    requires m > 0
  {
    if m % 2 == 1 then m else OddPart(m / 2)
  }

  lemma {:induction false} OddTwos(m: nat)
    requires m > 0
    ensures m == Mul(OddPart(m), Pow2(Twos(m))) && OddPart(m) % 2 == 1
  {
    if m % 2 == 0 {
      OddTwos(m / 2);
      Pow2Twice(Twos(m / 2));
      MulConst(2, OddPart(m / 2), Pow2(Twos(m / 2)));
    } else {
      MulUnit(m);
    }
  }

  lemma SplitFound(m: nat, k: nat)
    requires m > 0 && LowestBit(m, k)
    ensures k == Twos(m) && Div(m, Pow2(k)) == OddPart(m)
  {
    OddTwos(m);
    LowestBitIntro(m, OddPart(m), Twos(m));
    LowestBitUnique(m, k, Twos(m));
    FloorDiv(m, Pow2(k), OddPart(m), 0);
  }

  /** `n` passes the rounds with the first `rounds` bases. */
  ghost predicate PassesAll(n: int, bases: seq<int>, rounds: int)
    requires n > 1 && rounds <= |bases|
  {
    forall i :: 0 <= i < rounds ==> Passes(n, bases[i], OddPart(n - 1), Twos(n - 1))
  }

  ghost predicate PassesRounds(n: int, rounds: int)
    requires n > 1 && rounds <= |LOW_PRIMES|
  {
    PassesAll(n, LOW_PRIMES, rounds)
  }

  lemma PassesRoundsDef(n: int, rounds: int)
    requires n > 1 && rounds <= |LOW_PRIMES|
    ensures PassesRounds(n, rounds) <==> PassesAll(n, LOW_PRIMES, rounds)
  {}

  /** The argument of `bnpMillerRabin` after the shift has taken it for a 32-bit integer. */
  ghost function Asked(t: int): (r: int)
    ensures -TWO31 - 1 <= t < TWO31 - 1 ==> r == t
  {
    ToInt32(t + 1) - 1
  }

  /** `n` passes a round for every second unit of `t`, rounded up, as far as the table goes. */
  ghost predicate PassesAsked(n: int, t: int)
    requires n > 1
  {
    forall i :: 0 <= i < |LOW_PRIMES| && 2 * i < t ==> Passes(n, LOW_PRIMES[i], OddPart(n - 1), Twos(n - 1))
  }

  lemma RoundsAsked(n: int, t: int, rounds: int)
    requires n > 1 && rounds <= |LOW_PRIMES|
    requires rounds == if Sar(t + 1, 2) > |LOW_PRIMES| then |LOW_PRIMES| else Sar(t + 1, 2)
    ensures PassesRounds(n, rounds) <==> PassesAsked(n, Asked(t))
  {
    hide Passes;
    hide OddPart;
    hide Twos;
    var table := LOW_PRIMES;
    hide LOW_PRIMES;
    forall i | 0 <= i < |table|
      ensures 2 * i < Asked(t) <==> i < rounds
    {}
  }

  /** Passing a round means Fermat's congruence for its base. */
  lemma PassesFermat(n: int, a: int, r: nat, k: nat)
    requires n > 1 && n - 1 == r * Pow2(k) && Passes(n, a, r, k)
    ensures Cong(Power(a, n - 1), 1, n)
  {
    MulUnit(n);
    FloorDiv(1, n, 0, 1);
    if Squared(a, r, 0, n) == 1 {
      OnesStay(a, r, 0, k, n);
    } else {
      var j :| 0 <= j < k && Squared(a, r, j, n) == n - 1;
      SquaredStep(a, r, j, n);
      MinusOneSquared(n);
      OnesStay(a, r, j + 1, k, n);
    }
  }

  lemma MinusOneSquared(n: int)
    requires n > 1
    ensures Mod(Mul(n - 1, n - 1), n) == 1
  {
    assert (n - 1) * (n - 1) == (n - 2) * n + 1;
    FloorDiv((n - 1) * (n - 1), n, n - 2, 1);
  }

  /** So a number that is accepted for `t` meets Fermat's congruence for the first half of `t` primes. */
  lemma AskedFermat(n: int, t: int, i: nat)
    requires n > 1 && PassesAsked(n, t) && i < |LOW_PRIMES| && 2 * i < t
    ensures Cong(Power(LOW_PRIMES[i], n - 1), 1, n)
  {
    var a := LOW_PRIMES[i];
    hide LOW_PRIMES;
    OddTwos(n - 1);
    PassesFermat(n, a, OddPart(n - 1), Twos(n - 1));
  }

  ghost predicate InRange(bases: seq<int>) {
    forall i :: 0 <= i < |bases| ==> 2 <= bases[i] <= 509
  }

  lemma BasesInRange()
    ensures InRange(LOW_PRIMES)
  {
    forall i | 0 <= i < |LOW_PRIMES|
      ensures 2 <= LOW_PRIMES[i] <= 509
    {
      TableIsPrimes(LOW_PRIMES[i]);
    }
  }

  lemma FermatFor(n: int, t: int)
    ensures n > 1 && PassesAsked(n, Asked(t)) && t < TWO31 - 1 ==>
      forall i :: 0 <= i < |LOW_PRIMES| && 2 * i < t ==> Cong(Power(LOW_PRIMES[i], n - 1), 1, n)
  {
    if n > 1 && PassesAsked(n, Asked(t)) && t < TWO31 - 1 {
      hide PassesAsked;
      hide Cong;
      forall i | 0 <= i < |LOW_PRIMES| && 2 * i < t
        ensures Cong(Power(LOW_PRIMES[i], n - 1), 1, n)
      {
        AskedFermat(n, Asked(t), i);
      }
    }
  }

  /** crypto.js `bnpMillerRabin`: even numbers and 1 fail at once. */
  method MillerRabin(x: BigInteger, t: int) returns (passed: bool)
    requires x.Normal() && x.s == 0
    ensures x.Value() >= 0
    ensures passed <==> x.Value() > 1 && x.Value() % 2 == 1 && PassesAsked(x.Value(), Asked(t))
    ensures passed && t < TWO31 - 1 ==>
      forall i :: 0 <= i < |LOW_PRIMES| && 2 * i < t ==> Cong(Power(LOW_PRIMES[i], x.Value() - 1), 1, x.Value())
  {
    Compare.Bounds(x.arr, x.t, x.s);
    FermatFor(x.Value(), t);
    hide Val;
    hide B;
    hide ValueOf;
    hide LowestBit;
    hide OddPart;
    hide Twos;
    hide PassesRounds;
    hide PassesAll;
    hide PassesAsked;
    hide InRange;
    hide Cong;
    hide Power;
    var one := new BigInteger();
    one.FromInt(1);
    var n1 := Subtract(x, one);
    var k := GetLowestSetBit(n1);
    EvenOrOne(x.Value(), k);
    if k <= 0 {
      return false;
    }
    var r := OddFactor(n1, k);
    BasesInRange();
    var rounds := Sar(t + 1, 2);
    if rounds > |LOW_PRIMES| {
      rounds := |LOW_PRIMES|;
    }
    passed := RunRounds(x, n1, one, r, k, LOW_PRIMES, rounds);
    PassesRoundsDef(x.Value(), rounds);
    RoundsAsked(x.Value(), t, rounds);
  }

  lemma EvenOrOne(n: int, k: int)
    requires n >= 0 && (k >= 0 ==> LowestBit(n - 1, k)) && k >= -1 && (k == -1 <==> n - 1 == 0)
    ensures k <= 0 <==> !(n > 1 && n % 2 == 1)
  {
    LowestBitParity(n - 1, k);
  }

  method OddFactor(n1: BigInteger, k: nat) returns (r: BigInteger)
    requires n1.Normal() && n1.Value() > 0 && LowestBit(n1.Value(), k)
    ensures fresh(r) && r.Normal() && r.s == 0 && r.Value() == OddPart(n1.Value()) > 0 && k == Twos(n1.Value())
  {
    SplitFound(n1.Value(), k);
    OddTwos(n1.Value());
    r := ShiftRight(n1, k);
    Compare.Bounds(r.arr, r.t, r.s);
  }

  lemma LowestBitParity(v: int, k: int)
    requires k >= 0 ==> LowestBit(v, k)
    ensures k == 0 ==> v % 2 == 1
    ensures k > 0 ==> v % 2 == 0
  {
    if k >= 0 {
      var o :| v == Mul(o, Pow2(k)) && o % 2 == 1;
      MulUnit(o);
      if k > 0 {
        EvenMul(o, k);
      }
    }
  }

  /** The loop over the bases. */
  method RunRounds(x: BigInteger, n1: BigInteger, one: BigInteger, r: BigInteger, k: nat, bases: seq<int>, rounds: int)
    returns (passed: bool)
    requires x.Normal() && x.s == 0 && x.Value() > 2 && x.Value() % 2 == 1
    requires n1.Normal() && n1.Value() == x.Value() - 1 && one.Normal() && one.Value() == 1 && k >= 1
    requires r.Normal() && r.s == 0 && r.Value() == OddPart(x.Value() - 1) > 0 && k == Twos(x.Value() - 1)
    requires rounds <= |bases| && InRange(bases)
    ensures passed <==> PassesAll(x.Value(), bases, rounds)
  {
    ghost var n := x.Value();
    hide Val;
    hide B;
    hide ValueOf;
    hide OddPart;
    hide Twos;
    hide Passes;
    var a := new BigInteger();
    var i := 0;
    while i < rounds
      invariant 0 <= i && (i > 0 ==> i <= rounds) && PassesAll(n, bases, i)
      modifies a
    {
      a.FromInt(bases[i]);
      var ok := Round(x, n1, one, r, k, a);
      if !ok {
        return false;
      }
      i := i + 1;
    }
    passed := true;
  }

  // ---- trial division and the test itself

  /** Every table entry from `i` up to `j` divides `m`. */
  ghost predicate CommonMultiple(table: seq<int>, i: int, j: int, m: int)
    requires InRange(table)
  {
    0 <= i <= j <= |table| && forall l :: i <= l < j ==> Divides(table[l], m)
  }

  lemma DividesProduct(q: int, m: int, f: int)
    requires q > 0 && Divides(q, m)
    ensures Divides(q, m * f) && Divides(q, f * m)
  {
    DivMod(m, q);
    var c := m / q;
    assert m * f == (c * f) * q && f * m == (c * f) * q;
    FloorDiv(m * f, q, c * f, 0);
  }

  lemma DividesSelf(q: int)
    requires q > 0
    ensures Divides(q, q)
  {
    MulUnit(q);
    FloorDiv(q, q, 1, 0);
  }

  /** A batch: as many table entries as keep the product below 2^26. */
  method Batch(table: seq<int>, i: nat) returns (m: int, j: nat)
    requires InRange(table) && i < |table|
    ensures i < j <= |table| && 0 < m < 0x400_0000 && CommonMultiple(table, i, j, m)
  {
    m, j := table[i], i + 1;
    DividesSelf(m);
    while j < |table| && 509 * m < 0x400_0000
      invariant i < j <= |table| && 0 < m < 0x400_0000 && CommonMultiple(table, i, j, m)
    {
      MultipleGrows(table, i, j, m);
      MulBounds(m, m, table[j], 509);
      MulLess(0, m, table[j]);
      m := m * table[j];
      j := j + 1;
    }
  }

  lemma MultipleGrows(table: seq<int>, i: int, j: int, m: int)
    requires InRange(table) && j < |table| && CommonMultiple(table, i, j, m)
    ensures CommonMultiple(table, i, j + 1, m * table[j])
  {
    DividesSelf(table[j]);
    forall l | i <= l < j + 1
      ensures Divides(table[l], m * table[j])
    {
      if l < j {
        DividesProduct(table[l], m, table[j]);
      } else {
        DividesProduct(table[j], table[j], m);
      }
    }
  }

  lemma ModOfMod(n: int, m: int, q: int)
    requires m > 0 && q > 0 && Divides(q, m)
    ensures Divides(q, Mod(n, m)) <==> Divides(q, n)
  {
    var c, d := m / q, n / m;
    assert n == (d * c) * q + n % m by {
      assert m == c * q;
      assert d * (c * q) == (d * c) * q;
    }
    CongIntro(n, n % m, d * c, q);
  }

  /** The loop of `bnIsProbablePrime` over the table, its first entry left out: is there no divisor? */
  method TrialDivision(x: BigInteger, table: seq<int>) returns (none: bool)
    requires x.Valid() && InRange(table)
    ensures none <==> forall l :: 1 <= l < |table| ==> !Divides(table[l], x.Value())
  {
    hide ValueOf;
    hide Divides;
    ghost var n := x.Value();
    var i := 1;
    while i < |table|
      invariant 1 <= i && (i <= |table| || i == 1)
      invariant forall l :: 1 <= l < i && l < |table| ==> !Divides(table[l], n)
    {
      var m, j := Batch(table, i);
      var rest := ModInt(x, m);
      while i < j
        invariant 1 <= i <= j && j <= |table| && CommonMultiple(table, if i < j then i else j, j, m)
        invariant forall l :: 1 <= l < i ==> !Divides(table[l], n)
      {
        ModOfMod(n, m, table[i]);
        i := i + 1;
        if DividesInt(table[i - 1], rest) {
          return false;
        }
      }
    }
    none := true;
  }

  /** `m % d == 0` */
  predicate DividesInt(d: int, m: int)
    requires d > 0
    ensures DividesInt(d, m) <==> Divides(d, m)
  {
    m % d == 0
  }

  method Lookup(v: int, table: seq<int>) returns (found: bool)
    ensures found <==> v in table
  {
    for i := 0 to |table|
      invariant v !in table[..i]
    {
      if v == table[i] {
        return true;
      }
    }
    found := false;
  }

  /** What the test asks of a number past the table. */
  ghost predicate ProbablePrime(n: int, t: int)
    requires n > 509
  {
    n % 2 == 1 && (forall l :: 1 <= l < |LOW_PRIMES| ==> !Divides(LOW_PRIMES[l], n)) && PassesAsked(n, Asked(t))
  }

  /** A prime past the table meets all of it. */
  lemma PrimeIsProbable(n: int, t: int)
    requires Prime(n) && n > 509
    ensures ProbablePrime(n, t)
  {
    BasesInRange();
    assert InRange(LOW_PRIMES);
    assert !Divides(2, n);
    OddTwos(n - 1);
    PrimePassesAll(n, LOW_PRIMES, |LOW_PRIMES|);
    PrimeUndivided(n, LOW_PRIMES);
  }

  lemma PrimeUndivided(n: int, table: seq<int>)
    requires Prime(n) && n > 509 && InRange(table)
    ensures forall l :: 1 <= l < |table| ==> !Divides(table[l], n)
  {}

  lemma PrimePassesAll(n: int, bases: seq<int>, rounds: int)
    requires Prime(n) && n > 509 && InRange(bases) && rounds <= |bases|
    ensures PassesAll(n, bases, rounds)
  {
    OddTwos(n - 1);
    forall i | 0 <= i < rounds
      ensures Passes(n, bases[i], OddPart(n - 1), Twos(n - 1))
    {
      MulUnit(n);
      FloorDiv(bases[i], n, 0, bases[i]);
      PrimePasses(n, bases[i], OddPart(n - 1), Twos(n - 1));
    }
  }

  lemma OneDigitValue(a: Cells, t: nat)
    requires Compare.Clamped(a, t, 0)
    ensures t == 1 ==> ValueOf(a, t, 0) == a[0]
    ensures t == 0 ==> ValueOf(a, t, 0) == 0
    ensures t > 1 ==> ValueOf(a, t, 0) >= DV
  {
    Compare.Bounds(a, t, 0);
    NoDigit(a, 0);
    OneDigit(a, 0);
    MulUnit(B(t));
    if t > 1 {
      BMonotonic(1, t - 1);
    }
  }

  /** crypto.js `bnIsProbablePrime`: a prime is never rejected, the answer is exact up to 509, and past
      it is exactly what trial division and the Miller-Rabin rounds say. */
  method IsProbablePrime(x0: BigInteger, t: int) returns (prime: bool)
    requires x0.Normal()
    ensures var n := if x0.s < 0 then -x0.Value() else x0.Value();
            && (Prime(n) ==> prime)
            && (n <= 509 ==> (prime <==> Prime(n)))
            && (n > 509 ==> (prime <==> ProbablePrime(n, t)))
            && (n > 509 && prime && t < TWO31 - 1 ==>
                  forall i :: 0 <= i < |LOW_PRIMES| && 2 * i < t ==> Cong(Power(LOW_PRIMES[i], n - 1), 1, n))
  {
    var x := Abs(x0);
    ghost var n := x.Value();
    OneDigitValue(x.arr, x.t);
    TableIsPrimes(n);
    if n > 509 && Prime(n) {
      PrimeIsProbable(n, t);
    }
    BasesInRange();
    hide ValueOf;
    hide Val;
    hide InRange;
    hide PassesAsked;
    hide Asked;
    hide Divides;
    hide Cong;
    hide Power;
    if x.t == 1 && x.arr[0] <= 509 {
      prime := Lookup(x.arr[0], LOW_PRIMES);
      return;
    }
    var even := IsEven(x);
    if even {
      return false;
    }
    var none := TrialDivision(x, LOW_PRIMES);
    if !none {
      return false;
    }
    prime := MillerRabin(x, t);
  }

  // ---- a composite that the rounds reject

  /** One step of raising 2 to a power modulo 272483. */
  lemma PowerOfTwo(e: nat, y: int, bit: nat, q: int, r: int)
    requires Cong(Power(2, e), y, 272483) && bit <= 1 && y * y * (if bit == 1 then 2 else 1) == q * 272483 + r
    ensures Cong(Power(2, 2 * e + bit), r, 272483)
  {
    var n, p := 272483, Power(2, e);
    PowerAdd(2, e, e);
    CongMul(p, y, p, y, n);
    if bit == 1 {
      PowerStep(2 * e);
      CongRefl(2, n);
      CongMul(2, 2, Power(2, 2 * e), Mul(y, y), n);
    }
    PowerOfTwoEnd(y, bit, q, r);
    CongTrans(Power(2, 2 * e + bit), if bit == 1 then Mul(2, Mul(y, y)) else Mul(y, y), r, n);
  }

  lemma PowerStep(e: nat)
    ensures Power(2, e + 1) == Mul(2, Power(2, e))
  {}

  lemma PowerOfTwoEnd(y: int, bit: nat, q: int, r: int)
    requires bit <= 1 && y * y * (if bit == 1 then 2 else 1) == q * 272483 + r
    ensures Cong(if bit == 1 then Mul(2, Mul(y, y)) else Mul(y, y), r, 272483)
  {
    CongIntro(if bit == 1 then 2 * (y * y) else y * y, r, q, 272483);
  }

  ghost predicate IsPower(e: nat, y: int) {
    Cong(Power(2, e), y, 272483)
  }

  lemma NoPower()
    ensures IsPower(0, 1)
  {
    assert Power(2, 0) == 1;
  }

  lemma NextPower(e: nat, y: int, bit: nat, q: int, r: int)
    requires IsPower(e, y) && bit <= 1 && y * y * (if bit == 1 then 2 else 1) == q * 272483 + r
    ensures IsPower(2 * e + bit, r)
  {
    PowerOfTwo(e, y, bit, q, r);
  }

  lemma Powers1()
    requires IsPower(0, 1)
    ensures IsPower(33, 180500)
  {
    hide *;
    NextPower(0, 1, 1, 0, 2);
    NextPower(1, 2, 0, 0, 4);
    NextPower(2, 4, 0, 0, 16);
    NextPower(4, 16, 0, 0, 256);
    NextPower(8, 256, 0, 0, 65536);
    NextPower(16, 65536, 1, 31524, 180500);
  }

  lemma Powers2()
    requires IsPower(33, 180500)
    ensures IsPower(2128, 189278)
  {
    hide *;
    NextPower(33, 180500, 0, 119568, 2656);
    NextPower(66, 2656, 1, 51, 212039);
    NextPower(133, 212039, 0, 165003, 25072);
    NextPower(266, 25072, 0, 2306, 259386);
    NextPower(532, 259386, 0, 246918, 139602);
    NextPower(1064, 139602, 0, 71522, 189278);
  }

  lemma Powers3()
    requires IsPower(2128, 189278)
    ensures IsPower(136241, 204755)
  {
    hide *;
    NextPower(2128, 189278, 1, 262960, 192888);
    NextPower(4257, 192888, 1, 273086, 268550);
    NextPower(8515, 268550, 0, 264673, 209441);
    NextPower(17030, 209441, 0, 160984, 129209);
    NextPower(34060, 129209, 0, 61269, 204754);
    NextPower(68120, 204754, 1, 307719, 204755);
  }

  lemma PowerFound()
    ensures IsPower(136241, 204755)
  {
    hide *;
    NoPower();
    Powers1();
    Powers2();
    Powers3();
  }

  /** 272483 is 521 times 523, and the first of the five rounds that `t` of 10 asks for rejects it. */
  lemma CompositeRejected()
    ensures 272483 == 521 * 523 && !ProbablePrime(272483, 10)
  {
    var n := 272483;
    TableRises();
    PowerFound();
    hide LOW_PRIMES;
    assert OddPart(272482) == OddPart(136241) == 136241;
    assert Twos(272482) == 1 + Twos(136241) && Twos(136241) == 0;
    assert Pow2(0) == 1;
    hide Power;
    CongSmall(204755, 204755, n);
    FloorDiv(204755, n, 0, 204755);
    assert Squared(2, 136241, 0, n) == 204755;
    assert !Passes(n, LOW_PRIMES[0], OddPart(n - 1), Twos(n - 1));
  }
}
