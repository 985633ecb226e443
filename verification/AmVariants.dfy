/** The other multiply-accumulate routines, each at the digit width that its comment names.  All add `x` times a
    run of digits to another run, with the exact carry out, as the 28-bit `am3` does at its width. */
module AmVariants {
  import opened JsNumber
  import opened Digits
  import opened BigIntegers

  const DV26 := 0x400_0000
  const DV30 := 0x4000_0000
  const TWO53 := 0x20_0000_0000_0000

  // ---- digit strings to any base

  /** `base^n` */
  ghost function Weight(base: nat, n: nat): nat {
    if n == 0 then 1 else base * Weight(base, n - 1)
  }

  ghost predicate DigitsTo(base: nat, a: Cells, lo: int, n: int) {
    forall k :: lo <= k < lo + n ==> k in a && 0 <= a[k] < base
  }

  /** The number written, to this base, by the `n` digits of `a` from index `lo` on, lowest first. */
  ghost function Number(base: nat, a: Cells, lo: int, n: nat): int {
    if n == 0 then 0 else Number(base, a, lo, n - 1) + Mul(Digit(a, lo + n - 1), Weight(base, n - 1))
  }

  /** At base 2^28 these are the digit strings that the rest of the library works on. */
  lemma {:induction false} NumberIsVal(a: Cells, lo: int, n: nat)
    ensures Number(DV, a, lo, n) == Val(a, lo, n) && Weight(DV, n) == B(n)
  {
    if n > 0 {
      NumberIsVal(a, lo, n - 1);
    }
  }

  lemma {:induction false} NumberFrame(base: nat, a: Cells, b: Cells, lo: int, n: nat)
    requires forall k :: lo <= k < lo + n ==> Digit(a, k) == Digit(b, k)
    ensures Number(base, a, lo, n) == Number(base, b, lo, n)
  {
    if n > 0 {
      NumberFrame(base, a, b, lo, n - 1);
    }
  }

  lemma NumberStep(base: nat, a: Cells, lo: int, n: nat)
    ensures Number(base, a, lo, n + 1) == Number(base, a, lo, n) + Mul(Digit(a, lo + n), Weight(base, n))
    ensures Weight(base, n + 1) == base * Weight(base, n)
  {}

  /** After `k` digits: those of `a` from `i` on are still to be read, those of `w` before `j + k` are done,
      nothing else has changed, and the sum so far is exact. */
  ghost predicate Accumulated(base: nat, x: int, a0: Cells, i: int, a: Cells, w0: Cells, j: int, w: Cells, n: nat, k: nat,
                              c0: int, c: int)
  {
    && k <= n && DigitsTo(base, a0, i, n) && (forall q :: i + k <= q < i + n ==> q in a && a[q] == a0[q])
    && DigitsTo(base, w, j, n) && SameOutside(w0, w, j, j + k)
    && Number(base, w, j, k) + Mul(c, Weight(base, k)) == Number(base, w0, j, k) + Mul(x, Number(base, a0, i, k)) + c0
  }

  lemma NothingAccumulated(base: nat, x: int, a: Cells, i: int, w: Cells, j: int, n: nat, c0: int)
    requires DigitsTo(base, a, i, n) && DigitsTo(base, w, j, n)
    ensures Accumulated(base, x, a, i, a, w, j, w, n, 0, c0, c0)
  {
    MulUnit(x);
    MulUnit(c0);
  }

  lemma NextDigits(base: nat, x: int, a0: Cells, i: int, a: Cells, w0: Cells, j: int, w: Cells, n: nat, k: nat, c0: int, c: int)
    requires Accumulated(base, x, a0, i, a, w0, j, w, n, k, c0, c) && k < n
    ensures i + k in a && 0 <= a[i + k] < base && a[i + k] == Digit(a0, i + k)
    ensures j + k in w && 0 <= w[j + k] < base && w[j + k] == Digit(w0, j + k)
  {
    assert Digit(w0, j + k) == Digit(w, j + k);
  }

  /** One more digit, whose sum and carry are exact.  `a'` is what `a` is then: `w` may be the same array, if it is
      not written ahead of where it is read. */
  lemma DigitAccumulated(base: nat, x: int, a0: Cells, i: int, a: Cells, a': Cells, w0: Cells, j: int, w: Cells, n: nat, k: nat,
                         c0: int, c: int, digit: int, c': int)
    requires Accumulated(base, x, a0, i, a, w0, j, w, n, k, c0, c) && k < n && 0 <= digit < base
    requires i + k in a && j + k in w && digit + c' * base == Mul(x, a[i + k]) + w[j + k] + c
    requires a' == a || (a' == a[j + k := digit] && i >= j)
    ensures Accumulated(base, x, a0, i, a', w0, j, w[j + k := digit], n, k + 1, c0, c')
  {
    NextDigits(base, x, a0, i, a, w0, j, w, n, k, c0, c);
    var w' := w[j + k := digit];
    assert DigitsTo(base, w', j, n);
    assert SameOutside(w0, w', j, j + k + 1) by {
      forall q | !(j <= q < j + k + 1)
        ensures (q in w0 <==> q in w') && Digit(w0, q) == Digit(w', q)
      {
        assert Digit(w0, q) == Digit(w, q);
      }
    }
    NumberFrame(base, w, w', j, k);
    hide Number;
    hide Weight;
    hide Mul;
    NumberStep(base, a0, i, k);
    NumberStep(base, w0, j, k);
    NumberStep(base, w', j, k);
    CarryOn(base, x, Number(base, a0, i, k), Digit(a0, i + k), Number(base, w0, j, k), Digit(w0, j + k),
            Number(base, w', j, k), digit, c0, c, c', Weight(base, k));
  }

  lemma CarryOn(base: int, x: int, a: int, d: int, w: int, wd: int, v: int, vd: int, c0: int, cin: int, cout: int, p: int)
    requires vd + cout * base == Mul(x, d) + wd + cin
    requires v + Mul(cin, p) == w + Mul(x, a) + c0
    ensures v + Mul(vd, p) + Mul(cout, base * p) == w + Mul(wd, p) + Mul(x, a + Mul(d, p)) + c0
  {
    assert vd * p + cout * (base * p) == (vd + cout * base) * p;
    assert (x * d + wd + cin) * p == x * (d * p) + wd * p + cin * p;
    assert x * (a + d * p) == x * a + x * (d * p);
  }

  /** The carry that an exact digit leaves stays below 3 times the base. */
  lemma CarryBound(x: int, d: int, w: int, c: int, digit: int, c': int, base: int)
    requires base > 0 && 0 <= x < 2 * base && 0 <= d < base && 0 <= w < base && 0 <= c < 3 * base
    requires 0 <= digit < base && digit + Mul(c', base) == Mul(x, d) + w + c
    ensures 0 <= c' < 3 * base
  {
    MulBounds(x, 2 * base - 1, d, base - 1);
    MulConst(2, base, base - 1);
    MulSub(2 * base, 1, base - 1);
    MulSub(base, 1, base);
    MulUnit(base);
    MulUnit(base - 1);
    MulConst(3, base, base);
    hide Mul;
    if c' < 0 {
      MulLe(c', -1, base);
    }
    if c' >= 3 * base {
      MulLe(3 * base, c', base);
    }
  }

  lemma MulIsTimes(x: int, y: int)
    ensures Mul(x, y) == x * y
  {}

  // ---- am1

  /** The sum that one round of `am1` forms in a floating-point number. */
  ghost function Sum1(x: int, d: int, w: int, c: int): int {
    Mul(x, d) + w + c
  }

  /** The double nearest to a natural number up to 2^54, a tie going to the one with the even significand: above
      2^53 only even numbers are doubles. */
  function RoundDouble(v: nat): (r: nat)
    requires v <= 2 * TWO53
    ensures r == v <==> v <= TWO53 || v % 2 == 0
    ensures v - 1 <= r <= v + 1
  {
    if v <= TWO53 || v % 2 == 0 then v else if v % 4 == 1 then v - 1 else v + 1
  }

  /** An odd sum goes to a multiple of four, whose significand is even. */
  lemma RoundsToEven(q: nat, odd: nat)
    requires odd == 1 || odd == 3
    requires TWO53 < 4 * q + odd <= 2 * TWO53
    ensures RoundDouble(4 * q + odd) == 4 * (if odd == 1 then q else q + 1)
  {
    assert (4 * q + odd) % 4 == odd && (4 * q + odd) % 2 == 1;
  }

  /** The header of the `am` routines allows carries up to three times the base, but the sum of `am1` is sure to
      be no more than 2^53 for carries up to twice the base, and for no others. */
  lemma Am1Fits(c: int)
    requires 0 <= c
    ensures (forall x, d, w :: 0 <= x < 2 * DV26 && 0 <= d < DV26 && 0 <= w < DV26 ==> Sum1(x, d, w, c) <= TWO53) <==> c <= 2 * DV26
  {
    if c <= 2 * DV26 {
      forall x, d, w | 0 <= x < 2 * DV26 && 0 <= d < DV26 && 0 <= w < DV26
        ensures Sum1(x, d, w, c) <= TWO53
      {
        MulBounds(x, 2 * DV26 - 1, d, DV26 - 1);
        MulIsTimes(2 * DV26 - 1, DV26 - 1);
      }
    } else {
      MulIsTimes(2 * DV26 - 1, DV26 - 1);
      assert Sum1(2 * DV26 - 1, DV26 - 1, DV26 - 1, c) > TWO53;
    }
  }

  /** The greatest operands that the header allows: the sum is odd and above 2^53, and rounded up. */
  lemma Am1Overflows()
    ensures var v := Sum1(2 * DV26 - 1, DV26 - 1, DV26 - 1, 3 * DV26 - 1); v == TWO53 + DV26 - 1 && RoundDouble(v) == v + 1
  {
    MulIsTimes(2 * DV26 - 1, DV26 - 1);
  }

  /** The carry after one round. */
  lemma Am1Carry(v: nat)
    requires v < TWO53 + DV26
    ensures RoundDouble(v) / DV26 <= 2 * DV26 + 1
    ensures RoundDouble(v) == v || v <= TWO53 + 1 ==> RoundDouble(v) / DV26 <= 2 * DV26
  {}

  /** What rounding the sum adds. */
  ghost function Error1(x: int, d: int, w: int, c: int): int
    requires 0 <= Sum1(x, d, w, c) <= 2 * TWO53
  {
    RoundDouble(Sum1(x, d, w, c)) - Sum1(x, d, w, c)
  }

  /** How far the result is off, after `k` rounds: the first sum may have been rounded, and if it was, the second. */
  ghost predicate Off(k: nat, first: int, err: int, c: int) {
    && -1 <= first <= 1
    && (k == 0 ==> err == 0)
    && (k == 1 ==> err == first && 0 <= c <= 2 * DV26 + 1 && (first == 0 ==> c <= 2 * DV26))
    && (k > 1 ==> (err == first || err == first - DV26) && (first == 0 ==> err == 0) && 0 <= c <= 2 * DV26)
  }

  /** crypto.js `am1`, to base 2^26: one product and a division by the base.  The result is exact if and only if the
      first sum is a double. */
  method Am1(a: BigInteger, i: nat, x: int, w: BigInteger, j: nat, c0: int, n: nat) returns (c: int)
    requires 0 <= x < 2 * DV26 && 0 <= c0 < 3 * DV26
    requires DigitsTo(DV26, a.arr, i, n) && DigitsTo(DV26, w.arr, j, n)
    requires a != w || i >= j
    modifies w`arr
    ensures DigitsTo(DV26, w.arr, j, n) && SameOutside(old(w.arr), w.arr, j, j + n)
    ensures Number(DV26, w.arr, j, n) + Mul(c, Weight(DV26, n))
         == old(Number(DV26, w.arr, j, n) + Mul(x, Number(DV26, a.arr, i, n))) + c0
       <==> (n > 0 ==> old(Sum1(x, a.arr[i], w.arr[j], c0) <= TWO53 || Sum1(x, a.arr[i], w.arr[j], c0) % 2 == 0))
    ensures 0 <= c < 3 * DV26
  {
    hide Number;
    hide Weight;
    hide Mul;
    hide DigitsTo;
    hide SameOutside;
    hide Accumulated;
    hide RoundDouble;
    hide Sum1;
    hide Off;
    c := c0;
    ghost var a0, w0 := a.arr, w.arr;
    ghost var first, err := 0, 0;
    var k := 0;
    NothingAccumulated(DV26, x, a0, i, w0, j, n, c0);
    OffNone(c0);
    while k < n
      invariant 0 <= k <= n && 0 <= c < 3 * DV26
      invariant k == 0 ==> a.arr == a0 && w.arr == w0 && c == c0 && first == 0
      invariant k > 0 ==> First(x, a0, i, w0, j, c0, first)
      invariant Off(k, first, err, c)
      invariant Accumulated(DV26, x, a0, i, a.arr, w0, j, w.arr, n, k, c0 + err, c)
    {
      ghost var ak, wk, ck := a.arr, w.arr, c;
      NextDigits(DV26, x, a0, i, ak, w0, j, wk, n, k, c0 + err, c);
      Sum1Small(x, ak[i + k], wk[j + k], ck);
      ghost var e := Error1(x, ak[i + k], wk[j + k], ck);
      var digit;
      c, digit := Am1Digit(x, a.arr[i + k], w.arr[j + k], c);
      w.arr := w.arr[j + k := digit];
      ErrorIn(DV26, x, a0, i, ak, w0, j, wk, n, k, c0 + err, ck, e);
      DigitAccumulated(DV26, x, a0, i, ak, a.arr, w0, j, wk, n, k, c0 + err + Mul(e, Weight(DV26, k)), ck + e, digit, c);
      if k == 0 {
        first := e;
        FirstIs(x, a0, i, w0, j, c0, e);
      }
      OffMore(x, ak[i + k], wk[j + k], ck, k, first, err, e, c);
      err := err + Mul(e, Weight(DV26, k));
      k := k + 1;
    }
    OffEnd(n, first, err, c);
    AccumulatedEnd(DV26, x, a0, i, a.arr, w0, j, w.arr, n, c0 + err, c);
    FirstParts(x, a0, i, w0, j, c0, first, n);
  }

  /** `first` is what rounding the first sum adds. */
  ghost predicate First(x: int, a: Cells, i: int, w: Cells, j: int, c: int, first: int) {
    i in a && j in w && 0 <= Sum1(x, a[i], w[j], c) <= 2 * TWO53 && first == Error1(x, a[i], w[j], c)
  }

  lemma FirstIs(x: int, a: Cells, i: int, w: Cells, j: int, c: int, first: int)
    requires i in a && j in w && 0 <= Sum1(x, a[i], w[j], c) <= 2 * TWO53 && first == Error1(x, a[i], w[j], c)
    ensures First(x, a, i, w, j, c, first)
  {}

  lemma FirstParts(x: int, a: Cells, i: int, w: Cells, j: int, c: int, first: int, n: nat)
    requires n > 0 ==> First(x, a, i, w, j, c, first)
    ensures n > 0 ==> i in a && j in w && (first == 0 <==> Sum1(x, a[i], w[j], c) <= TWO53 || Sum1(x, a[i], w[j], c) % 2 == 0)
  {}

  lemma OffNone(c: int)
    ensures Off(0, 0, 0, c)
  {}

  lemma OffEnd(k: nat, first: int, err: int, c: int)
    requires Off(k, first, err, c)
    ensures k == 0 ==> err == 0
    ensures k > 0 ==> (err == 0 <==> first == 0)
  {}

  /** One more round: from the third on, nothing is rounded. */
  lemma OffMore(x: int, d: int, w: int, c: int, k: nat, first: int, err: int, e: int, c': int)
    requires 0 <= x < 2 * DV26 && 0 <= d < DV26 && 0 <= w < DV26 && 0 <= c < 3 * DV26
    requires 0 <= Sum1(x, d, w, c) < TWO53 + DV26 && e == Error1(x, d, w, c) && c' == RoundDouble(Sum1(x, d, w, c)) / DV26
    requires Off(k, if k == 0 then 0 else first, err, c) && (k == 0 ==> first == e)
    ensures Off(k + 1, first, err + Mul(e, Weight(DV26, k)), c')
  {
    MulBounds(x, 2 * DV26 - 1, d, DV26 - 1);
    MulIsTimes(2 * DV26 - 1, DV26 - 1);
    Am1Carry(Sum1(x, d, w, c));
    assert Weight(DV26, 0) == 1 && Weight(DV26, 1) == DV26;
    if k == 0 {
      MulIsTimes(e, 1);
    } else if k == 1 {
      MulIsTimes(e, DV26);
      assert e == 0 || (e == -1 && c == 2 * DV26 + 1);
    } else {
      assert e == 0;
      MulIsTimes(0, Weight(DV26, k));
    }
  }

  /** An error in the carry is one in the sum, at its place. */
  lemma ErrorIn(base: nat, x: int, a0: Cells, i: int, a: Cells, w0: Cells, j: int, w: Cells, n: nat, k: nat, c0: int, c: int, e: int)
    requires Accumulated(base, x, a0, i, a, w0, j, w, n, k, c0, c)
    ensures Accumulated(base, x, a0, i, a, w0, j, w, n, k, c0 + Mul(e, Weight(base, k)), c + e)
  {
    assert (c + e) * Weight(base, k) == c * Weight(base, k) + e * Weight(base, k);
    hide Number;
  }

  lemma AccumulatedEnd(base: nat, x: int, a0: Cells, i: int, a: Cells, w0: Cells, j: int, w: Cells, n: nat, c0: int, c: int)
    requires Accumulated(base, x, a0, i, a, w0, j, w, n, n, c0, c)
    ensures DigitsTo(base, w, j, n) && SameOutside(w0, w, j, j + n)
    ensures Number(base, w, j, n) + Mul(c, Weight(base, n)) == Number(base, w0, j, n) + Mul(x, Number(base, a0, i, n)) + c0
  {}

  lemma Sum1Small(x: int, d: int, w: int, c: int)
    requires 0 <= x < 2 * DV26 && 0 <= d < DV26 && 0 <= w < DV26 && 0 <= c < 3 * DV26
    ensures 0 <= Sum1(x, d, w, c) < TWO53 + DV26
  {
    MulBounds(x, 2 * DV26 - 1, d, DV26 - 1);
    MulIsTimes(2 * DV26 - 1, DV26 - 1);
  }

  /** The body of the loop of `am1`. */
  method Am1Digit(x: int, d: int, w: int, c: int) returns (c': int, digit: int)
    requires 0 <= Sum1(x, d, w, c) < TWO53 + DV26
    ensures 0 <= digit < DV26 && 0 <= c' < 3 * DV26 && c' == RoundDouble(Sum1(x, d, w, c)) / DV26
    ensures digit + c' * DV26 == Mul(x, d) + w + (c + Error1(x, d, w, c))
  {
    var v := RoundDouble(x * d + w + c);
    c' := v / DV26;
    digit := Mask(v, DV26);
  }

  // ---- am2

  /** crypto.js `am2`, to base 2^30, on 15-bit halves, the sums read back as unsigned numbers. */
  method Am2(a: BigInteger, i: nat, x: int, w: BigInteger, j: nat, c0: int, n: nat) returns (c: int)
    requires 0 <= x < 2 * DV30 && 0 <= c0 < 3 * DV30
    requires DigitsTo(DV30, a.arr, i, n) && DigitsTo(DV30, w.arr, j, n)
    requires a != w || i >= j
    modifies w`arr
    ensures DigitsTo(DV30, w.arr, j, n) && SameOutside(old(w.arr), w.arr, j, j + n)
    ensures Number(DV30, w.arr, j, n) + Mul(c, Weight(DV30, n))
         == old(Number(DV30, w.arr, j, n) + Mul(x, Number(DV30, a.arr, i, n))) + c0
    ensures 0 <= c < 3 * DV30
  {
    hide Number;
    hide Weight;
    hide Mul;
    hide DigitsTo;
    hide SameOutside;
    c := c0;
    ghost var a0, w0 := a.arr, w.arr;
    var xl, xh := Mask(x, 0x8000), Sar(x, 0x8000);
    var k := 0;
    NothingAccumulated(DV30, x, a0, i, w0, j, n, c0);
    while k < n
      invariant 0 <= k <= n && 0 <= c < 3 * DV30
      invariant Accumulated(DV30, x, a0, i, a.arr, w0, j, w.arr, n, k, c0, c)
    {
      ghost var ak, wk, ck := a.arr, w.arr, c;
      NextDigits(DV30, x, a0, i, ak, w0, j, wk, n, k, c0, c);
      var digit;
      c, digit := Am2Digit(xl, xh, a.arr[i + k], w.arr[j + k], c);
      w.arr := w.arr[j + k := digit];
      DigitAccumulated(DV30, x, a0, i, ak, a.arr, w0, j, wk, n, k, c0, ck, digit, c);
      k := k + 1;
    }
  }

  /** The body of the loop of `am2`. */
  method Am2Digit(xl: int, xh: int, d: int, w: int, c: int) returns (c': int, digit: int)
    requires 0 <= xl < 0x8000 && 0 <= xh < 0x1_0000
    requires 0 <= d < DV30 && 0 <= w < DV30 && 0 <= c < 3 * DV30
    ensures 0 <= digit < DV30 && 0 <= c' < 3 * DV30
    ensures digit + c' * DV30 == Mul(xh * 0x8000 + xl, d) + w + c
  {
    var l, h := Mask(d, 0x8000), Sar(d, 0x8000);
    assert d == h * 0x8000 + l && 0 <= h < 0x8000;
    Expand15(xh, xl, h, l);
    MulBound(xh, 0xffff, l, 0x7fff);
    MulBound(h, 0x7fff, xl, 0x7fff);
    MulBound(xl, 0x7fff, l, 0x7fff);
    hide Mul;
    hide Shl;
    hide ShiftUnsigned;
    hide Mask;
    ghost var low, high := xl * l, xh * h;
    var m := xh * l + h * xl;
    Sum15(low, m, high, w, c);
    l := xl * l + Shl(Mask(m, 0x8000), 0x8000) + w + Mask(c, DV30);
    c' := ShiftUnsigned(l, DV30) + ShiftUnsigned(m, 0x8000) + xh * h + ShiftUnsigned(c, DV30);
    digit := Mask(l, DV30);
    MulIsTimes(c', DV30);
    CarryBound(xh * 0x8000 + xl, d, w, c, digit, c', DV30);
  }

  lemma Sum15(low: int, m: int, high: int, w: int, c: int)
    requires 0 <= low <= 0x3fff_0001 && 0 <= m < TWO32 && 0 <= w < DV30 && 0 <= c < TWO32
    ensures var l := low + Shl(Mask(m, 0x8000), 0x8000) + w + Mask(c, DV30);
            0 <= l < TWO32
            && Mask(l, DV30) + (ShiftUnsigned(l, DV30) + ShiftUnsigned(m, 0x8000) + high + ShiftUnsigned(c, DV30)) * DV30
               == low + m * 0x8000 + high * DV30 + w + c
  {}

  lemma Expand15(xh: int, xl: int, dh: int, dl: int)
    ensures Mul(xh * 0x8000 + xl, dh * 0x8000 + dl) == xh * dh * DV30 + (xh * dl + dh * xl) * 0x8000 + xl * dl
  {
    assert (xh * 0x8000 + xl) * (dh * 0x8000 + dl) == xh * dh * DV30 + (xh * dl + dh * xl) * 0x8000 + xl * dl;
  }

  // ---- am4

  /** crypto.js `am4`, to base 2^26, on 13-bit halves: every intermediate number is within 29 bits. */
  method Am4(a: BigInteger, i: nat, x: int, w: BigInteger, j: nat, c0: int, n: nat) returns (c: int)
    requires 0 <= x < 2 * DV26 && 0 <= c0 < 3 * DV26
    requires DigitsTo(DV26, a.arr, i, n) && DigitsTo(DV26, w.arr, j, n)
    requires a != w || i >= j
    modifies w`arr
    ensures DigitsTo(DV26, w.arr, j, n) && SameOutside(old(w.arr), w.arr, j, j + n)
    ensures Number(DV26, w.arr, j, n) + Mul(c, Weight(DV26, n))
         == old(Number(DV26, w.arr, j, n) + Mul(x, Number(DV26, a.arr, i, n))) + c0
    ensures 0 <= c < 3 * DV26
  {
    hide Number;
    hide Weight;
    hide Mul;
    hide DigitsTo;
    hide SameOutside;
    c := c0;
    ghost var a0, w0 := a.arr, w.arr;
    var xl, xh := Mask(x, 0x2000), Sar(x, 0x2000);
    var k := 0;
    NothingAccumulated(DV26, x, a0, i, w0, j, n, c0);
    while k < n
      invariant 0 <= k <= n && 0 <= c < 3 * DV26
      invariant Accumulated(DV26, x, a0, i, a.arr, w0, j, w.arr, n, k, c0, c)
    {
      ghost var ak, wk, ck := a.arr, w.arr, c;
      NextDigits(DV26, x, a0, i, ak, w0, j, wk, n, k, c0, c);
      var digit;
      c, digit := Am4Digit(xl, xh, a.arr[i + k], w.arr[j + k], c);
      w.arr := w.arr[j + k := digit];
      DigitAccumulated(DV26, x, a0, i, ak, a.arr, w0, j, wk, n, k, c0, ck, digit, c);
      k := k + 1;
    }
  }

  /** The body of the loop of `am4`. */
  method Am4Digit(xl: int, xh: int, d: int, w: int, c: int) returns (c': int, digit: int)
    requires 0 <= xl < 0x2000 && 0 <= xh < 0x4000
    requires 0 <= d < DV26 && 0 <= w < DV26 && 0 <= c < 3 * DV26
    ensures 0 <= digit < DV26 && 0 <= c' < 3 * DV26
    ensures digit + c' * DV26 == Mul(xh * 0x2000 + xl, d) + w + c
  {
    var l, h := Mask(d, 0x2000), Sar(d, 0x2000);
    Expand13(xh, xl, h, l);
    MulBound(xh, 0x3fff, l, 0x1fff);
    MulBound(h, 0x1fff, xl, 0x1fff);
    MulBound(xl, 0x1fff, l, 0x1fff);
    var m := xh * l + h * xl;
    assert 0 <= m < 0x2000_0000;
    l := xl * l + Shl(Mask(m, 0x2000), 0x2000) + w + c;
    assert 0 <= l < 0x2000_0000;
    c' := Sar(l, DV26) + Sar(m, 0x2000) + xh * h;
    digit := Mask(l, DV26);
    CarryBound(xh * 0x2000 + xl, d, w, c, digit, c', DV26);
  }

  lemma Expand13(xh: int, xl: int, dh: int, dl: int)
    ensures Mul(xh * 0x2000 + xl, dh * 0x2000 + dl) == xh * dh * DV26 + (xh * dl + dh * xl) * 0x2000 + xl * dl
  {
    assert (xh * 0x2000 + xl) * (dh * 0x2000 + dl) == xh * dh * DV26 + (xh * dl + dh * xl) * 0x2000 + xl * dl;
  }
}
