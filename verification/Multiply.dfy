/** Negation, products and squares. */
module Multiply {
  import opened JsNumber
  import opened Digits
  import opened BigIntegers
  import Compare

  /** crypto.js `bnNegate` */
  method Negate(x: BigInteger) returns (r: BigInteger)
    requires x.Valid()
    ensures fresh(r) && r.Normal() && r.Value() == -x.Value()
  {
    r := new BigInteger();
    var zero := new BigInteger();
    zero.SubTo(x, r);
  }

  /** crypto.js `bnAbs`: a non-negative number is returned as it is, not copied. */
  method Abs(x: BigInteger) returns (r: BigInteger)
    requires x.Valid()
    ensures if x.s < 0 then fresh(r) && r.Normal() else r == x
    ensures r.Valid() && r.s == 0 && r.Value() == (if x.s < 0 then -x.Value() else x.Value())
    ensures x.Normal() ==> r.Normal()
  {
    if x.s < 0 {
      r := Negate(x);
      Compare.Bounds(r.arr, r.t, r.s);
      NegativeValue(x.arr, x.t);
    } else {
      r := x;
    }
  }

  lemma NegativeValue(a: Cells, t: nat)
    requires IsDigits(a, 0, t)
    ensures 0 - B(t) <= ValueOf(a, t, -1) < 0
  {
    ValBound(a, 0, t);
  }

  /** crypto.js `bnpMultiplyTo`: r = this * a. */
  method MultiplyTo(x0: BigInteger, a: BigInteger, r: BigInteger)
    requires x0.Valid() && a.Valid() && r != x0 && r != a
    modifies r
    ensures r.Normal() && r.Value() == x0.Value() * a.Value()
  {
    hide ValueOf;
    hide Mul;
    ghost var v, w := x0.Value(), a.Value();
    var x := Abs(x0);
    var y := Abs(a);
    MultiplyAbs(x, y, r);
    if x0.s != a.s {
      var zero := new BigInteger();
      zero.SubTo(r, r);
    }
    SignedProduct(v, x0.s < 0, w, a.s < 0);
  }

  method MultiplyAbs(x: BigInteger, y: BigInteger, r: BigInteger)
    requires x.Valid() && y.Valid() && x.s == y.s == 0 && r != x && r != y
    modifies r
    ensures r.Normal() && r.Value() == Mul(x.Value(), y.Value())
  {
    hide Val;
    hide B;
    hide Mul;
    ZeroCells(r, x.t);
    MultiplyDigits(x, y, r);
    r.t := x.t + y.t;
    r.s := 0;
    Unsigned(r.arr, r.t);
    Unsigned(x.arr, x.t);
    Unsigned(y.arr, y.t);
    r.Clamp();
  }

  lemma Unsigned(a: Cells, t: nat)
    ensures ValueOf(a, t, 0) == Val(a, 0, t)
  {}

  /** The loop of `bnpMultiplyTo`: one row of the product for each digit of the multiplier. */
  method MultiplyDigits(x: BigInteger, y: BigInteger, r: BigInteger)
    requires x.Valid() && y.Valid() && r != x && r != y
    requires forall k :: 0 <= k < x.t ==> k in r.arr && r.arr[k] == 0
    modifies r`arr
    ensures IsDigits(r.arr, 0, x.t + y.t)
    ensures Val(r.arr, 0, x.t + y.t) == Mul(Val(x.arr, 0, x.t), Val(y.arr, 0, y.t))
  {
    hide Val;
    hide B;
    hide Mul;
    var i := 0;
    ProductStart(x.arr, y.arr, r.arr, x.t);
    while i < y.t
      invariant 0 <= i <= y.t
      invariant IsDigits(r.arr, 0, x.t + i)
      invariant Val(r.arr, 0, x.t + i) == Mul(Val(x.arr, 0, x.t), Val(y.arr, 0, i))
    {
      ghost var before := r.arr;
      var c := x.Am(0, y.arr[i], r, i, 0, x.t);
      ghost var mid := r.arr;
      ProductStep(x.arr, x.t, y.arr, i, before, mid, c);
      r.arr := r.arr[i + x.t := c];
      ProductTop(mid, r.arr, x.t + i, c);
      i := i + 1;
    }
  }

  /** Clear the first `n` cells, from the last one down. */
  method ZeroCells(r: BigInteger, n: nat)
    modifies r`arr
    ensures forall k :: 0 <= k < n ==> k in r.arr && r.arr[k] == 0
    ensures SameOutside(old(r.arr), r.arr, 0, n)
  {
    var i := n - 1;
    while i >= 0
      invariant -1 <= i < n
      invariant forall k :: i < k < n ==> k in r.arr && r.arr[k] == 0
      invariant SameOutside(old(r.arr), r.arr, 0, n)
    {
      r.arr := r.arr[i := 0];
      i := i - 1;
    }
  }

  lemma SignedProduct(x: int, xNeg: bool, y: int, yNeg: bool)
    ensures var p := Mul(if xNeg then -x else x, if yNeg then -y else y);
            Mul(x, y) == x * y == (if xNeg == yNeg then p else -p)
  {}

  lemma ProductStart(x: Cells, y: Cells, r: Cells, n: nat)
    requires forall k :: 0 <= k < n ==> k in r && r[k] == 0
    ensures Val(r, 0, n) == 0 == Mul(Val(x, 0, n), Val(y, 0, 0))
  {
    ValZero(r, 0, n);
    assert Val(y, 0, 0) == 0;
  }

  /** One digit of the multiplier, with the carry out of the top that `am` returns. */
  lemma ProductStep(x: Cells, n: nat, y: Cells, i: nat, before: Cells, mid: Cells, c: int)
    requires IsDigits(x, 0, n) && IsDigits(y, 0, i + 1) && IsDigits(before, 0, n + i) && IsDigits(mid, i, n)
    requires SameOutside(before, mid, i, i + n)
    requires Val(before, 0, n + i) == Mul(Val(x, 0, n), Val(y, 0, i))
    requires Val(mid, i, n) + Mul(c, B(n)) == Val(before, i, n) + Mul(y[i], Val(x, 0, n)) + 0
    ensures Val(mid, 0, n + i) + Mul(c, B(n + i)) == Mul(Val(x, 0, n), Val(y, 0, i + 1))
    ensures IsDigits(mid, 0, n + i) && c < DV
  {
    hide Val;
    hide B;
    hide Mul;
    DigitsPatched(before, mid, i, i + n, 0, n + i);
    var xv, bi := Val(x, 0, n), B(i);
    ValSplit(before, 0, i, n);
    ValSplit(mid, 0, i, n);
    ValFrame(before, mid, 0, i);
    ValStep(y, 0, i);
    BAdd(i, n);
    ProductAlgebra(bi, Val(mid, i, n), c, B(n), Val(before, i, n), y[i], xv);
    MulAdd(Val(y, 0, i), Mul(y[i], bi), xv);
    ValBound(mid, i, n);
    ValBound(before, i, n);
    ValBound(x, 0, n);
    CarryFits(c, B(n), y[i], xv, Val(mid, i, n), Val(before, i, n));
  }

  lemma ProductAlgebra(bi: int, m: int, c: int, bn: int, w: int, d: int, x: int)
    requires m + Mul(c, bn) == w + Mul(d, x)
    ensures Mul(bi, m) + Mul(c, Mul(bi, bn)) == Mul(bi, w) + Mul(x, Mul(d, bi))
  {
    assert bi * (m + c * bn) == bi * m + c * (bi * bn);
    assert bi * (w + d * x) == bi * w + x * (d * bi);
  }

  lemma CarryFits(c: int, b: int, d: int, x: int, m: int, w: int)
    requires m + Mul(c, b) == w + Mul(d, x) && 0 <= d < DV && 0 <= x < b && 0 <= m && w < b
    ensures c < DV
  {
    MulLe(d, DM, x);
    if c >= DV {
      MulLe(DV, c, b);
    }
  }

  lemma ProductTop(mid: Cells, r: Cells, n: nat, c: int)
    requires r == mid[n := c]
    ensures Val(r, 0, n + 1) == Val(mid, 0, n) + Mul(c, B(n))
  {
    ValFrame(mid, r, 0, n);
    ValStep(r, 0, n);
  }

  /** crypto.js `bnpSquareTo`: r = this * this, with each cross product counted once and doubled. */
  method SquareTo(x0: BigInteger, r: BigInteger)
    requires x0.Valid() && r != x0
    modifies r
    ensures r.Normal() && r.s == 0 && r.Value() == x0.Value() * x0.Value()
  {
    hide ValueOf;
    hide Mul;
    ghost var v := x0.Value();
    var x := Abs(x0);
    SquareAbs(x, r);
    SignedProduct(v, x0.s < 0, v, x0.s < 0);
  }

  method SquareAbs(x: BigInteger, r: BigInteger)
    requires x.Valid() && x.s == 0 && r != x
    modifies r
    ensures r.Normal() && r.s == 0 && r.Value() == Mul(x.Value(), x.Value())
  {
    hide Val;
    hide B;
    hide Mul;
    hide ValueOf;
    r.t := 2 * x.t;
    ZeroCells(r, 2 * x.t);
    SquareStart(x.arr, x.t, r.arr);
    var i := SquareRows(x, r);
    if r.t > 0 {
      ghost var before := r.arr;
      var top := r.arr[r.t - 1];
      var c := x.Am(i, x.arr[i], r, 2 * i, 0, 1);
      ghost var after := r.arr;
      SquareLast(x.arr, x.t, before, after, c);
      r.arr := r.arr[r.t - 1 := top + c];
      ProductTop(after, r.arr, r.t - 1, top + c);
    } else {
      SquareNothing(x.arr, r.arr);
    }
    r.s := 0;
    Unsigned(r.arr, r.t);
    Unsigned(x.arr, x.t);
    r.Clamp();
  }

  lemma SquareNothing(x: Cells, r: Cells)
    ensures Val(r, 0, 0) == Mul(Val(x, 0, 0), Val(x, 0, 0))
  {}

  /** The loop of `bnpSquareTo`. */
  method SquareRows(x: BigInteger, r: BigInteger) returns (i: nat)
    requires x.Valid() && r != x && SquaredBelow(x.arr, x.t, r.arr, 0)
    modifies r`arr
    ensures i == if x.t > 0 then x.t - 1 else 0
    ensures SquaredBelow(x.arr, x.t, r.arr, i)
  {
    hide SquaredBelow;
    hide Val;
    hide B;
    hide Mul;
    i := 0;
    while i < x.t - 1
      invariant 0 <= i && (i < x.t || i == 0) && SquaredBelow(x.arr, x.t, r.arr, i)
    {
      SquareRow(x, r, i);
      i := i + 1;
    }
  }

  /** The body of the loop of `bnpSquareTo`: the square of digit `i`, then twice its products with
      the digits above, and the one overflow that the doubling can cause. */
  method SquareRow(x: BigInteger, r: BigInteger, i: nat)
    requires x.Valid() && r != x && i < x.t - 1 && SquaredBelow(x.arr, x.t, r.arr, i)
    modifies r`arr
    ensures SquaredBelow(x.arr, x.t, r.arr, i + 1)
  {
    hide SquaredBelow;
    hide Val;
    hide B;
    hide Mul;
    hide Sq;
    ghost var r0 := r.arr;
    SquaredDigits(x.arr, x.t, r0, i);
    DigitsWithin(x.arr, 0, x.t, i, 1);
    DigitsWithin(x.arr, 0, x.t, i + 1, x.t - i - 1);
    DigitsWithin(r0, 0, 2 * x.t, 2 * i, 1);
    DigitIn(x.arr, 0, x.t, i);
    hide IsDigits;
    hide SameOutside;
    var c := x.Am(i, x.arr[i], r, 2 * i, 0, 1);
    ghost var r1, c1 := r.arr, c;
    DigitsPatched(r0, r1, 2 * i, 2 * i + 1, 0, 2 * x.t);
    DigitsWithin(r1, 0, 2 * x.t, 2 * i + 1, x.t - i - 1);
    DigitIn(r1, 0, 2 * x.t, i + x.t);
    OutsideAt(r0, r1, 2 * i, 2 * i + 1, i + x.t);
    var v := r.arr[i + x.t];
    c := x.Am(i + 1, 2 * x.arr[i], r, 2 * i + 1, c, x.t - i - 1);
    ghost var r2 := r.arr;
    SquareSum(x.arr, x.t, i, r0, r1, r2, c1, c);
    assert v == r2[i + x.t];
    r.arr := r.arr[i + x.t := v + c];
    assert r.arr[i + x.t] == v + c;
    if r.arr[i + x.t] >= DV {
      r.arr := r.arr[i + x.t := r.arr[i + x.t] - DV];
      r.arr := r.arr[i + x.t + 1 := 1];
    }
    SquareFix(x.arr, x.t, i, r2, r.arr, v + c);
  }

  /** What is still to be added is the square of the digits from `i` up. */
  ghost predicate SquaredBelow(x: Cells, n: nat, r: Cells, i: nat)
    requires i <= n
  {
    && IsDigits(r, 0, 2 * n)
    && (forall k :: i + n + 1 <= k < 2 * n ==> r[k] == 0)
    && Val(r, 0, 2 * n) + Mul(B(2 * i), Sq(Val(x, i, n - i))) == Sq(Val(x, 0, n))
  }

  ghost function Sq(x: int): int {
    Mul(x, x)
  }

  lemma DigitsWithin(a: Cells, from: int, n: int, lo: int, m: int)
    requires IsDigits(a, from, n) && from <= lo && lo + m <= from + n
    ensures IsDigits(a, lo, m)
  {}

  lemma OutsideAt(a: Cells, b: Cells, lo: int, hi: int, k: int)
    requires SameOutside(a, b, lo, hi) && !(lo <= k < hi) && k in a && k in b
    ensures a[k] == b[k]
  {
    assert Digit(a, k) == Digit(b, k);
  }

  lemma DigitIn(a: Cells, from: int, n: int, k: int)
    requires IsDigits(a, from, n) && from <= k < from + n
    ensures k in a && 0 <= a[k] < DV
  {}

  lemma SquaredDigits(x: Cells, n: nat, r: Cells, i: nat)
    requires i <= n && SquaredBelow(x, n, r, i)
    ensures IsDigits(r, 0, 2 * n)
  {}

  lemma SquareStart(x: Cells, n: nat, r: Cells)
    requires forall k :: 0 <= k < 2 * n ==> k in r && r[k] == 0
    ensures SquaredBelow(x, n, r, 0)
  {
    ValZero(r, 0, 2 * n);
    MulUnit(Sq(Val(x, 0, n)));
  }

  /** The two calls of `am` in one row, seen as one window of digits. */
  lemma SquareWindow(x: Cells, n: nat, i: nat, r0: Cells, r1: Cells, r2: Cells, c1: int, c2: int)
    requires i < n && SameOutside(r0, r1, 2 * i, 2 * i + 1) && SameOutside(r1, r2, 2 * i + 1, i + n)
    requires Val(r1, 2 * i, 1) + Mul(c1, B(1)) == Val(r0, 2 * i, 1) + Mul(Digit(x, i), Val(x, i, 1)) + 0
    requires Val(r2, 2 * i + 1, n - i - 1) + Mul(c2, B(n - i - 1))
          == Val(r1, 2 * i + 1, n - i - 1) + Mul(2 * Digit(x, i), Val(x, i + 1, n - i - 1)) + c1
    ensures Val(r2, 0, i + n) + Mul(c2, B(i + n))
         == Val(r0, 0, i + n) + Mul(B(2 * i), Mul(Digit(x, i), Digit(x, i) + 2 * DV * Val(x, i + 1, n - i - 1)))
  {
    hide Val;
    hide B;
    hide Mul;
    OneDigit(x, i);
    OneDigit(r0, 2 * i);
    OneDigit(r1, 2 * i);
    MulDV(c1);
    var m, d, h, p := n - i - 1, Digit(x, i), Val(x, i + 1, n - i - 1), B(2 * i);
    SquareFrame(r0, r1, r2, i, n);
    ValSplit(r2, 0, 2 * i, m + 1);
    ValSplit(r0, 0, 2 * i, m + 1);
    ValLow(r2, 2 * i, m);
    ValLow(r0, 2 * i, m);
    BAdd(2 * i, m + 1);
    BStep(m);
    SquareRowAlgebra(d, h, Digit(r1, 2 * i), c1, Digit(r0, 2 * i), Val(r2, 2 * i + 1, m), c2, B(m), Val(r1, 2 * i + 1, m), p);
  }

  lemma SquareFrame(r0: Cells, r1: Cells, r2: Cells, i: nat, n: nat)
    requires i < n && SameOutside(r0, r1, 2 * i, 2 * i + 1) && SameOutside(r1, r2, 2 * i + 1, i + n)
    ensures Val(r0, 0, 2 * i) == Val(r2, 0, 2 * i)
    ensures Val(r0, 2 * i + 1, n - i - 1) == Val(r1, 2 * i + 1, n - i - 1)
    ensures Digit(r2, 2 * i) == Digit(r1, 2 * i)
  {
    hide Val;
    hide B;
    ValFrame(r0, r2, 0, 2 * i);
    ValFrame(r0, r1, 2 * i + 1, n - i - 1);
  }

  lemma SquareRowAlgebra(d: int, h: int, a1: int, c1: int, a0: int, w2: int, c2: int, b: int, w1: int, p: int)
    requires a1 + DV * c1 == a0 + Mul(d, d)
    requires w2 + Mul(c2, b) == w1 + Mul(2 * d, h) + c1
    ensures Mul(p, a1 + DV * w2) + Mul(c2, Mul(p, DV * b))
         == Mul(p, a0 + DV * w1) + Mul(p, Mul(d, d + 2 * DV * h))
  {
    hide Mul;
    MulAdd(d, 2 * DV * h, d);
    MulConst(2 * DV, d, h);
    MulConst(2, d, h);
    MulConst(DV, c2, b);
    MulAssoc(c2, p, DV * b);
    MulComm(c2, p);
    MulAssoc(p, c2, DV * b);
    MulAdd(a1 + DV * w2, Mul(c2, DV * b), p);
    MulAdd(a0 + DV * w1, Mul(d, d + 2 * DV * h), p);
    assert a1 + DV * w2 + Mul(c2, DV * b) == a0 + DV * w1 + Mul(d, d + 2 * DV * h);
  }

  /** After a row, everything but the place of the carry is as the next row needs it. */
  lemma SquareSum(x: Cells, n: nat, i: nat, r0: Cells, r1: Cells, r2: Cells, c1: int, c2: int)
    requires i < n - 1 && IsDigits(x, 0, n) && SquaredBelow(x, n, r0, i)
    requires SameOutside(r0, r1, 2 * i, 2 * i + 1) && SameOutside(r1, r2, 2 * i + 1, i + n)
    requires IsDigits(r1, 2 * i, 1) && IsDigits(r2, 2 * i + 1, n - i - 1)
    requires Val(r1, 2 * i, 1) + Mul(c1, B(1)) == Val(r0, 2 * i, 1) + Mul(x[i], Val(x, i, 1)) + 0
    requires Val(r2, 2 * i + 1, n - i - 1) + Mul(c2, B(n - i - 1))
          == Val(r1, 2 * i + 1, n - i - 1) + Mul(2 * x[i], Val(x, i + 1, n - i - 1)) + c1
    requires c2 >= 0
    ensures IsDigits(r2, 0, 2 * n) && r2[i + n] == r0[i + n] && 0 <= r2[i + n] + c2 < 2 * DV
    ensures forall k :: i + n + 1 <= k < 2 * n ==> r2[k] == 0
    ensures Val(r2, 0, i + n) + Mul(r2[i + n] + c2, B(i + n)) + Mul(B(2 * (i + 1)), Sq(Val(x, i + 1, n - i - 1)))
         == Sq(Val(x, 0, n))
  {
    hide Val;
    hide B;
    hide Mul;
    hide Sq;
    DigitsPatched(r0, r1, 2 * i, 2 * i + 1, 0, 2 * n);
    DigitsPatched(r1, r2, 2 * i + 1, i + n, 0, 2 * n);
    assert Digit(r2, i + n) == Digit(r1, i + n) == Digit(r0, i + n);
    forall k | i + n + 1 <= k < 2 * n
      ensures r2[k] == 0
    {
      assert Digit(r2, k) == Digit(r1, k) == Digit(r0, k);
    }
    SquareWindow(x, n, i, r0, r1, r2, c1, c2);
    hide SameOutside;
    var m, d, h, p := n - i - 1, x[i], Val(x, i + 1, n - i - 1), B(2 * i);
    ZeroAbove(r0, i + n, n - i - 1);
    ValLow(x, i, m);
    BStep(2 * i);
    BStep(2 * i + 1);
    SquareAlgebra(d, h, p);
    MulAdd(r2[i + n], c2, B(i + n));
    SquareCarry(x, n, i, r2, r2[i + n] + c2);
  }

  lemma ZeroAbove(r: Cells, k: nat, m: nat)
    requires IsDigits(r, 0, k + 1 + m) && forall j :: k + 1 <= j < k + 1 + m ==> r[j] == 0
    ensures Val(r, 0, k + 1 + m) == Val(r, 0, k) + Mul(r[k], B(k))
  {
    hide Val;
    hide B;
    hide Mul;
    ValSplit(r, 0, k + 1, m);
    ValZero(r, k + 1, m);
    ValStep(r, 0, k);
    MulUnit(B(k + 1));
  }

  lemma SquareAlgebra(d: int, h: int, p: int)
    ensures Mul(p, Mul(d, d + 2 * DV * h)) + Mul(DV * (DV * p), Sq(h)) == Mul(p, Sq(d + DV * h))
  {
    hide Mul;
    assert Sq(d + DV * h) == Mul(d, d + 2 * DV * h) + DV * (DV * Mul(h, h)) by {
      MulAdd(d, DV * h, d + DV * h);
      MulAdd(d, 2 * DV * h, d);
      MulAdd(d, DV * h, d);
      MulAdd(d, DV * h, DV * h);
      MulConst(DV, h, d);
      MulConst(DV, d, h);
      MulConst(2 * DV, d, h);
      MulConst(DV, h, DV * h);
      MulConst(DV, h, h);
      MulComm(d, h);
    }
    MulAdd(Mul(d, d + 2 * DV * h), DV * (DV * Mul(h, h)), p);
    MulConst(DV, DV * Mul(h, h), p);
    MulConst(DV, Mul(h, h), p);
    MulComm(p, DV * (DV * Mul(h, h)));
    MulConst(DV, DV * p, Mul(h, h));
    MulConst(DV, p, Mul(h, h));
    MulComm(p, Mul(h, h));
  }

  /** The sum of the rows done so far is the difference of two squares, which bounds the carry. */
  lemma SquareCarry(x: Cells, n: nat, i: nat, r: Cells, top: int)
    requires i < n - 1 && IsDigits(x, 0, n) && IsDigits(r, 0, i + n)
    requires Val(r, 0, i + n) + Mul(top, B(i + n)) + Mul(B(2 * (i + 1)), Sq(Val(x, i + 1, n - i - 1)))
          == Sq(Val(x, 0, n))
    ensures top < 2 * DV
  {
    hide Val;
    hide B;
    hide Mul;
    hide Sq;
    var l, h, b := Val(x, 0, i + 1), Val(x, i + 1, n - i - 1), B(i + 1);
    ValSplit(x, 0, i + 1, n - i - 1);
    ValBound(x, 0, i + 1);
    ValBound(x, i + 1, n - i - 1);
    ValBound(x, 0, n);
    ValBound(r, 0, i + n);
    BAdd(i + 1, i + 1);
    BAdd(i + 1, n);
    BStep(i + n);
    DifferenceOfSquares(l, b, h);
    MulLe(0, h, b);
    MulUnit(b);
    MulBounds(l, b, l + 2 * Mul(b, h), 2 * B(n));
    MulConst(2, B(n), b);
    MulComm(b, 2 * B(n));
    MulComm(b, B(n));
    if top >= 2 * DV {
      MulLe(2 * DV, top, B(i + n));
      MulConst(2 * DV, 1, B(i + n));
      MulUnit(B(i + n));
      MulBoundsStrict(l, b, l + 2 * Mul(b, h), 2 * B(n));
    }
  }

  lemma MulBoundsStrict(x: int, xMax: int, y: int, yMax: int)
    requires 0 <= x < xMax && 0 <= y && y <= yMax && 0 < yMax
    ensures Mul(x, y) < Mul(xMax, yMax)
  {
    hide Mul;
    MulLe(y, yMax, x);
    MulLess(x, xMax, yMax);
  }

  lemma DifferenceOfSquares(l: int, b: int, h: int)
    ensures Sq(l + Mul(b, h)) - Mul(Mul(b, b), Sq(h)) == Mul(l, l + 2 * Mul(b, h))
  {
    assert (b * b) * (h * h) == (b * h) * (b * h);
    var z := b * h;
    assert (l + z) * (l + z) - z * z == l * (l + 2 * z);
  }

  lemma SquareFix(x: Cells, n: nat, i: nat, r2: Cells, r3: Cells, v: int)
    requires i < n - 1 && IsDigits(r2, 0, 2 * n) && 0 <= v < 2 * DV
    requires forall k :: i + n + 1 <= k < 2 * n ==> r2[k] == 0
    requires r3 == if v >= DV then r2[i + n := v][i + n := v - DV][i + n + 1 := 1] else r2[i + n := v]
    requires Val(r2, 0, i + n) + Mul(v, B(i + n)) + Mul(B(2 * (i + 1)), Sq(Val(x, i + 1, n - i - 1)))
         == Sq(Val(x, 0, n))
    ensures SquaredBelow(x, n, r3, i + 1)
  {
    hide Val;
    hide B;
    hide Mul;
    hide Sq;
    assert IsDigits(r3, 0, 2 * n);
    ValFrame(r2, r3, 0, i + n);
    ValStep(r3, 0, i + n);
    BStep(i + n);
    MulSub(v, DV, B(i + n));
    MulConst(DV, 1, B(i + n));
    MulUnit(B(i + n));
    MulUnit(B(i + n + 1));
    ZeroAbove(r3, i + n + 1, n - i - 2);
  }

  lemma SquareLast(x: Cells, n: nat, r0: Cells, r: Cells, c: int)
    requires n > 0 && IsDigits(x, 0, n) && SquaredBelow(x, n, r0, n - 1)
    requires SameOutside(r0, r, 2 * n - 2, 2 * n - 1) && IsDigits(r, 2 * n - 2, 1) && c >= 0
    requires Val(r, 2 * n - 2, 1) + Mul(c, B(1)) == Val(r0, 2 * n - 2, 1) + Mul(x[n - 1], Val(x, n - 1, 1)) + 0
    ensures IsDigits(r, 0, 2 * n) && r[2 * n - 1] == r0[2 * n - 1] && r[2 * n - 1] + c < DV
    ensures Val(r, 0, 2 * n - 1) + Mul(r[2 * n - 1] + c, B(2 * n - 1)) == Mul(Val(x, 0, n), Val(x, 0, n))
  {
    hide Val;
    hide B;
    hide Mul;
    OneDigit(x, n - 1);
    OneDigit(r0, 2 * n - 2);
    OneDigit(r, 2 * n - 2);
    DigitsPatched(r0, r, 2 * n - 2, 2 * n - 1, 0, 2 * n);
    assert Digit(r, 2 * n - 1) == Digit(r0, 2 * n - 1);
    ValFrame(r0, r, 0, 2 * n - 2);
    ValStep(r, 0, 2 * n - 2);
    ValStep(r0, 0, 2 * n - 2);
    ValStep(r0, 0, 2 * n - 1);
    BStep(2 * n - 2);
    BStep(2 * n - 1);
    var p := B(2 * n - 2);
    MulAdd(r[2 * n - 1], c, DV * p);
    MulDV(c);
    SquareLastAlgebra(r[2 * n - 2], c, r0[2 * n - 2], x[n - 1], p);
    SquareTop(x, n, r, r[2 * n - 1] + c);
  }

  lemma SquareTop(x: Cells, n: nat, r: Cells, top: int)
    requires n > 0 && IsDigits(x, 0, n) && IsDigits(r, 0, 2 * n - 1)
    requires Val(r, 0, 2 * n - 1) + Mul(top, B(2 * n - 1)) == Mul(Val(x, 0, n), Val(x, 0, n))
    ensures top < DV
  {
    hide Val;
    hide B;
    hide Mul;
    ValBound(x, 0, n);
    ValBound(r, 0, 2 * n - 1);
    BAdd(n, n);
    BStep(2 * n - 1);
    MulBoundsStrict(Val(x, 0, n), B(n), Val(x, 0, n), B(n));
    if top >= DV {
      MulLe(DV, top, B(2 * n - 1));
      MulConst(DV, 1, B(2 * n - 1));
      MulUnit(B(2 * n - 1));
    }
  }

  lemma SquareLastAlgebra(a: int, c: int, a0: int, d: int, p: int)
    requires a + DV * c == a0 + Mul(d, d)
    ensures Mul(a, p) + Mul(c, DV * p) == Mul(a0, p) + Mul(p, Mul(d, d))
  {
    hide Mul;
    MulConst(DV, c, p);
    MulConst(DV, p, c);
    MulComm(c, DV * p);
    MulComm(c, p);
    MulAdd(a, DV * c, p);
    MulAdd(a0, Mul(d, d), p);
    MulComm(p, Mul(d, d));
  }
}
