/** Values of base-2^28 digit strings held in a (sparse) JavaScript array. */
module Digits {
  import opened JsNumber

  const DB := 28
  const DV := 0x1000_0000
  const DM := 0xfff_ffff

  type Cells = map<int, int>

  /** `DV^n` */
  ghost function B(n: nat): (r: nat)
    ensures r > 0
  {
    if n == 0 then 1 else DV * B(n - 1)
  }

  /** Multiplication under a name, so that a proof can hide it where only linear reasoning is
      needed. */
  ghost function Mul(x: int, y: int): int {
    x * y
  }

  /** The quotient rounded down and the remainder, under names for the same reason. */
  ghost function Div(x: int, m: int): int
    requires m > 0
  {
    x / m
  }

  ghost function Mod(x: int, m: int): (r: int)
    requires m > 0
    ensures 0 <= r < m
  {
    x % m
  }

  ghost function Digit(a: Cells, k: int): int {
    if k in a then a[k] else 0
  }

  ghost predicate IsDigits(a: Cells, lo: int, n: int) {
    forall k :: lo <= k < lo + n ==> k in a && 0 <= a[k] < DV
  }

  /** The number written by the `n` digits of `a` that start at index `lo`, lowest first. */
  ghost function Val(a: Cells, lo: int, n: nat): int {
    if n == 0 then 0 else Val(a, lo, n - 1) + Mul(Digit(a, lo + n - 1), B(n - 1))
  }

  lemma MulAdd(x: int, y: int, p: int)
    ensures Mul(x + y, p) == Mul(x, p) + Mul(y, p)
    ensures Mul(p, x + y) == Mul(p, x) + Mul(p, y)
  {}

  lemma MulSub(x: int, y: int, p: int)
    ensures Mul(x - y, p) == Mul(x, p) - Mul(y, p)
    ensures Mul(p, x - y) == Mul(p, x) - Mul(p, y)
  {}

  lemma MulNeg(x: int, p: int)
    ensures Mul(-x, p) == -Mul(x, p) == Mul(x, -p)
  {}

  lemma MulAssoc(x: int, y: int, z: int)
    ensures Mul(x, Mul(y, z)) == Mul(Mul(x, y), z)
  {
    assert x * (y * z) == (x * y) * z;
  }

  lemma MulComm(x: int, y: int)
    ensures Mul(x, y) == Mul(y, x)
  {}

  lemma MulLe(x: int, y: int, z: int)
    requires x <= y && 0 <= z
    ensures Mul(x, z) <= Mul(y, z) && Mul(z, x) <= Mul(z, y)
  {
    assert (y - x) * z >= 0;
  }

  lemma MulLess(x: int, y: int, z: int)
    requires x < y && 0 < z
    ensures Mul(x, z) < Mul(y, z) && Mul(z, x) < Mul(z, y)
  {
    assert (y - x) * z >= 1;
  }

  /** A factor that is a number: Mul is linear there. */
  lemma MulConst(c: int, x: int, y: int)
    ensures Mul(c * x, y) == c * Mul(x, y) == Mul(x, c * y)
  {
    assert (c * x) * y == c * (x * y) == x * (c * y);
  }

  lemma MulDV(x: int)
    ensures Mul(x, DV) == DV * x == Mul(DV, x)
  {}

  lemma MulUnit(x: int)
    ensures Mul(0, x) == 0 == Mul(x, 0) && Mul(1, x) == x == Mul(x, 1) && Mul(-1, x) == -x == Mul(x, -1)
  {}

  lemma MulBounds(x: int, xMax: int, y: int, yMax: int)
    requires 0 <= x <= xMax && 0 <= y <= yMax
    ensures 0 <= Mul(x, y) <= Mul(xMax, yMax)
  {
    MulLe(x, xMax, y);
    MulLe(y, yMax, xMax);
    assert x * y >= 0;
  }

  lemma DivModUnique(m: int, q: int, r: int, q': int, r': int)
    requires 0 <= r < m && 0 <= r' < m
    requires Mul(q, m) + r == Mul(q', m) + r'
    ensures q == q' && r == r'
  {
    hide Mul;
    if q < q' {
      MulLe(q + 1, q', m);
      MulAdd(q, 1, m);
      MulUnit(m);
    } else if q' < q {
      MulLe(q' + 1, q, m);
      MulAdd(q', 1, m);
      MulUnit(m);
    }
  }

  lemma FloorDiv(x: int, m: int, q: int, r: int)
    requires m > 0 && 0 <= r < m && x == Mul(q, m) + r
    ensures Div(x, m) == q && Mod(x, m) == r
  {
    DivModUnique(m, q, r, x / m, x % m);
  }

  lemma DivMod(x: int, m: int)
    requires m > 0
    ensures x == Mul(Div(x, m), m) + Mod(x, m)
  {}

  lemma DivNonNegative(x: int, m: int)
    requires m > 0 && x >= 0
    ensures 0 <= Div(x, m) && Mul(Div(x, m), m) <= x < Mul(Div(x, m), m) + m
  {
    DivMod(x, m);
  }

  lemma BStep(n: nat)
    ensures B(n + 1) == DV * B(n)
  {}

  lemma ValStep(a: Cells, lo: int, n: nat)
    ensures Val(a, lo, n + 1) == Val(a, lo, n) + Mul(Digit(a, lo + n), B(n))
  {}

  lemma {:induction false} BAdd(m: nat, n: nat)
    ensures B(m + n) == Mul(B(m), B(n))
  {
    if m > 0 {
      BAdd(m - 1, n);
      hide B;
      hide Mul;
      BStep(m - 1 + n);
      BStep(m - 1);
      MulConst(DV, B(m - 1), B(n));
    }
  }

  lemma {:induction false} BMonotonic(m: nat, n: nat)
    requires m <= n
    ensures B(m) <= B(n)
  {
    if m < n {
      BMonotonic(m, n - 1);
    }
  }

  lemma {:induction false} ValFrame(a: Cells, b: Cells, lo: int, n: nat)
    requires forall k :: lo <= k < lo + n ==> Digit(a, k) == Digit(b, k)
    ensures Val(a, lo, n) == Val(b, lo, n)
  {
    if n > 0 {
      ValFrame(a, b, lo, n - 1);
    }
  }

  /** Moving the digits moves nothing else. */
  lemma {:induction false} ValShift(a: Cells, b: Cells, lo: int, to: int, n: nat)
    requires forall k :: lo <= k < lo + n ==> Digit(a, k) == Digit(b, k - lo + to)
    ensures Val(a, lo, n) == Val(b, to, n)
  {
    if n > 0 {
      ValShift(a, b, lo, to, n - 1);
      assert Digit(a, lo + n - 1) == Digit(b, to + n - 1);
    }
  }

  lemma {:induction false} ValSplit(a: Cells, lo: int, m: nat, n: nat)
    ensures Val(a, lo, m + n) == Val(a, lo, m) + Mul(B(m), Val(a, lo + m, n))
  {
    hide Mul;
    if n > 0 {
      ValSplit(a, lo, m, n - 1);
      hide Val;
      hide B;
      var d := Digit(a, lo + m + n - 1);
      ValStep(a, lo, m + n - 1);
      ValStep(a, lo + m, n - 1);
      BAdd(m, n - 1);
      MulAdd(Val(a, lo + m, n - 1), Mul(d, B(n - 1)), B(m));
      MulAssoc(B(m), d, B(n - 1));
      MulComm(B(m), d);
      MulAssoc(d, B(m), B(n - 1));
    } else {
      MulUnit(B(m));
    }
  }

  lemma {:induction false} ValBound(a: Cells, lo: int, n: nat)
    requires IsDigits(a, lo, n)
    ensures 0 <= Val(a, lo, n) < B(n)
  {
    if n > 0 {
      ValBound(a, lo, n - 1);
      hide Val;
      hide B;
      ValStep(a, lo, n - 1);
      BStep(n - 1);
      assert 0 <= Digit(a, lo + n - 1) <= DM;
      MulLe(0, Digit(a, lo + n - 1), B(n - 1));
      MulLe(Digit(a, lo + n - 1), DM, B(n - 1));
    }
  }

  lemma {:induction false} ValZero(a: Cells, lo: int, n: nat)
    requires forall k :: lo <= k < lo + n ==> Digit(a, k) == 0
    ensures Val(a, lo, n) == 0
  {
    if n > 0 {
      ValZero(a, lo, n - 1);
    }
  }

  /** The lowest digit taken off. */
  lemma ValLow(a: Cells, i: int, n: nat)
    ensures Val(a, i, n + 1) == Digit(a, i) + DV * Val(a, i + 1, n)
  {
    OneDigit(a, i);
    ValSplit(a, i, 1, n);
  }

  lemma OneDigit(a: Cells, i: int)
    ensures Val(a, i, 1) == Digit(a, i) && B(1) == DV
  {
    ValStep(a, i, 0);
  }

  lemma NoDigit(a: Cells, i: int)
    ensures Val(a, i, 0) == 0 && B(0) == 1
  {}

  /** Digit strings of one length are equal when their values are. */
  lemma {:induction false} ValUnique(a: Cells, b: Cells, lo: int, n: nat)
    requires IsDigits(a, lo, n) && IsDigits(b, lo, n)
    requires Val(a, lo, n) == Val(b, lo, n)
    ensures forall k :: lo <= k < lo + n ==> a[k] == b[k]
  {
    if n > 0 {
      ValBound(a, lo, n - 1);
      ValBound(b, lo, n - 1);
      ValStep(a, lo, n - 1);
      ValStep(b, lo, n - 1);
      hide Val;
      hide B;
      hide Mul;
      DivModUnique(B(n - 1), Digit(a, lo + n - 1), Val(a, lo, n - 1), Digit(b, lo + n - 1), Val(b, lo, n - 1));
      ValUnique(a, b, lo, n - 1);
    }
  }

  /** A larger leading digit decides the order. */
  lemma ValTopLess(a: Cells, b: Cells, lo: int, n: nat)
    requires n > 0 && IsDigits(a, lo, n) && IsDigits(b, lo, n)
    requires a[lo + n - 1] < b[lo + n - 1]
    ensures Val(a, lo, n) < Val(b, lo, n)
  {
    ValBound(a, lo, n - 1);
    ValBound(b, lo, n - 1);
    ValStep(a, lo, n - 1);
    ValStep(b, lo, n - 1);
    hide Val;
    hide B;
    hide Mul;
    MulLe(Digit(a, lo + n - 1) + 1, Digit(b, lo + n - 1), B(n - 1));
    MulAdd(Digit(a, lo + n - 1), 1, B(n - 1));
    MulUnit(B(n - 1));
  }

  lemma BaseIs()
    ensures DV == 0x1000_0000
  {}
}
