/** Barrett reduction. */
module Barretts {
  import opened JsNumber
  import opened Digits
  import opened BigIntegers
  import opened Multiply
  import opened Division
  import opened Congruence
  import opened Reducers
  import opened Montgomery
  import Compare

  /** One row of a product whose columns below `k` are dropped: `w` digits of `x` from `x.t - w` up
      times `d`, with the carry in the next cell, which was clear. */
  lemma RowAdded(r0: Cells, r1: Cells, r2: Cells, n: nat, from: nat, w: nat, d: int, h: int, c: int)
    requires from + w < n && IsDigits(r0, 0, n) && IsDigits(r1, from, w) && SameOutside(r0, r1, from, from + w)
    requires forall k :: from + w <= k < n ==> r0[k] == 0
    requires 0 <= d < DV && 0 <= h < B(w) && c >= 0
    requires Val(r1, from, w) + Mul(c, B(w)) == Val(r0, from, w) + Mul(d, h) + 0
    requires r2 == r1[from + w := c]
    ensures IsDigits(r2, 0, n) && forall k :: from + w < k < n ==> r2[k] == 0
    ensures Val(r2, 0, n) == Val(r0, 0, n) + Mul(B(from), Mul(d, h))
  {
    hide Val;
    hide B;
    hide Mul;
    RowCarry(r0, r1, from, w, d, h, c);
    RowCells(r0, r1, r2, n, from, w, c);
    RowValue(r0, r2, from, w, Val(r1, from, w), d, h, c);
  }

  lemma RowCarry(r0: Cells, r1: Cells, from: nat, w: nat, d: int, h: int, c: int)
    requires IsDigits(r0, from, w) && IsDigits(r1, from, w) && 0 <= d < DV && 0 <= h < B(w)
    requires Val(r1, from, w) + Mul(c, B(w)) == Val(r0, from, w) + Mul(d, h)
    ensures c < DV
  {
    hide Val;
    hide B;
    hide Mul;
    ValBound(r1, from, w);
    ValBound(r0, from, w);
    CarryFits(c, B(w), d, h, Val(r1, from, w), Val(r0, from, w));
  }

  lemma RowValue(r0: Cells, r2: Cells, from: nat, w: nat, v1: int, d: int, h: int, c: int)
    requires Val(r2, 0, from) == Val(r0, 0, from) && Val(r2, from, w) == v1 && Digit(r2, from + w) == c
    requires v1 + Mul(c, B(w)) == Val(r0, from, w) + Mul(d, h)
    ensures Val(r2, 0, from + w + 1) == Val(r0, 0, from + w) + Mul(B(from), Mul(d, h))
  {
    hide Val;
    hide B;
    hide Mul;
    ValSplit(r0, 0, from, w);
    ValSplit(r2, 0, from, w + 1);
    ValStep(r2, from, w);
    MulAdd(Val(r0, from, w), Mul(d, h), B(from));
  }

  lemma RowCells(r0: Cells, r1: Cells, r2: Cells, n: nat, from: nat, w: nat, c: int)
    requires from + w < n && IsDigits(r0, 0, n) && IsDigits(r1, from, w) && SameOutside(r0, r1, from, from + w)
    requires forall k :: from + w <= k < n ==> r0[k] == 0
    requires 0 <= c < DV && r2 == r1[from + w := c]
    ensures IsDigits(r2, 0, n) && forall k :: from + w < k < n ==> r2[k] == 0
    ensures Val(r2, 0, from) == Val(r0, 0, from) && Val(r2, from, w) == Val(r1, from, w)
    ensures Val(r0, 0, n) == Val(r0, 0, from + w) && Val(r2, 0, n) == Val(r2, 0, from + w + 1)
  {
    hide Val;
    hide B;
    hide Mul;
    DigitsPatched(r0, r1, from, from + w, 0, n);
    forall k | from + w < k < n
      ensures r2[k] == 0
    {
      assert Digit(r1, k) == Digit(r0, k);
    }
    ValFrame(r2, r0, 0, from);
    ValFrame(r2, r1, from, w);
    ValPad(r0, from + w, n);
    ValPad(r2, from + w + 1, n);
  }

  /** crypto.js `bnpMultiplyUpperTo`: the product without its lower `n` words, except that the carries
      out of the columns below word `n - 1` are lost: at most `n` too small, never too large. */
  method MultiplyUpperTo(x: BigInteger, a: BigInteger, n: nat, r: BigInteger)
    requires x.Valid() && a.Valid() && x.s == a.s == 0 && r != x && r != a
    requires 0 < n && a.t <= n <= x.t + a.t + 1
    modifies r
    ensures r.Normal() && r.s == 0
    ensures var p := Mul(x.Value(), a.Value());
            Mul(r.Value(), B(n)) <= p < Mul(r.Value() + n, B(n))
  {
    hide Val;
    hide B;
    hide Mul;
    hide Div;
    hide ValueOf;
    var k := n - 1;
    var len := x.t + a.t - k;
    ZeroCells(r, len);
    ghost var low := UpperRows(x, a, k, len, r);
    Unsigned(x.arr, x.t);
    Unsigned(a.arr, a.t);
    ghost var u := Val(r.arr, 0, len);
    DropWord(r, len);
    UpperQuotient(u, low, k, r.Value(), Mul(x.Value(), a.Value()));
  }

  /** The lowest of the computed words has served for its carry only. */
  method DropWord(r: BigInteger, len: nat)
    requires IsDigits(r.arr, 0, len)
    modifies r
    ensures r.Normal() && r.s == 0 && r.Value() == Div(old(Val(r.arr, 0, len)), DV)
  {
    hide Val;
    hide Div;
    OneDigit(r.arr, 0);
    hide B;
    r.t := len;
    r.s := 0;
    Unsigned(r.arr, len);
    r.Clamp();
    r.DRShiftTo(1, r);
  }

  /** The loop of `bnpMultiplyUpperTo`; `low` is what the dropped columns would have added. */
  method UpperRows(x: BigInteger, a: BigInteger, k: nat, len: nat, r: BigInteger) returns (ghost low: int)
    requires x.Valid() && a.Valid() && r != x && r != a && a.t <= k + 1 && len == x.t + a.t - k
    requires forall j :: 0 <= j < len ==> j in r.arr && r.arr[j] == 0
    modifies r`arr
    ensures IsDigits(r.arr, 0, len) && 0 <= low <= Mul(k, DV * B(k))
    ensures Mul(B(k), Val(r.arr, 0, len)) + low == Mul(Val(x.arr, 0, x.t), Val(a.arr, 0, a.t))
  {
    hide Val;
    hide B;
    hide Mul;
    var i := if k - x.t > 0 then k - x.t else 0;
    low := Mul(Val(x.arr, 0, x.t), Val(a.arr, 0, i));
    UpperStart(x.arr, x.t, a.arr, k, i, r.arr, len);
    while i < a.t
      invariant 0 <= i <= a.t && k - x.t <= i
      invariant IsDigits(r.arr, 0, len) && forall j :: x.t + i - k <= j < len ==> r.arr[j] == 0
      invariant 0 <= low <= Mul(if i < k then i else k, DV * B(k))
      invariant Mul(B(k), Val(r.arr, 0, len)) + low == Mul(Val(x.arr, 0, x.t), Val(a.arr, 0, i))
    {
      ghost var r0 := r.arr;
      var w := x.t + i - k;
      var c := x.Am(k - i, a.arr[i], r, 0, 0, w);
      ghost var r1 := r.arr;
      r.arr := r.arr[w := c];
      ValBound(x.arr, k - i, w);
      RowAdded(r0, r1, r.arr, len, 0, w, a.arr[i], Val(x.arr, k - i, w), c);
      low := UpperRow(x.arr, x.t, a.arr, k, i, Val(r0, 0, len), Val(r.arr, 0, len), low);
      i := i + 1;
    }
    MulLe(if i < k then i else k, k, DV * B(k));
  }

  lemma UpperStart(x: Cells, xt: nat, a: Cells, k: nat, i: nat, r: Cells, len: nat)
    requires IsDigits(x, 0, xt) && IsDigits(a, 0, i) && i == if k - xt > 0 then k - xt else 0
    requires forall j :: 0 <= j < len ==> j in r && r[j] == 0
    ensures 0 <= Mul(Val(x, 0, xt), Val(a, 0, i)) <= Mul(if i < k then i else k, DV * B(k))
    ensures Mul(B(k), Val(r, 0, len)) == 0
  {
    hide Val;
    hide B;
    hide Mul;
    ValZero(r, 0, len);
    MulUnit(B(k));
    MulUnit(DV * B(k));
    NoDigit(a, 0);
    MulUnit(Val(x, 0, xt));
    if i > 0 {
      ValBound(x, 0, xt);
      ValBound(a, 0, i);
      MulBounds(Val(x, 0, xt), B(xt), Val(a, 0, i), B(i));
      BAdd(xt, i);
      MulLe(1, if i < k then i else k, DV * B(k));
    }
  }

  /** One row: the columns from `k` up go to the result, those below are dropped. */
  lemma UpperRow(x: Cells, xt: nat, a: Cells, k: nat, i: nat, u: int, u': int, low: int) returns (low': int)
    requires IsDigits(x, 0, xt) && IsDigits(a, 0, i + 1) && i <= k && k - xt <= i
    requires 0 <= low <= Mul(i, DV * B(k))
    requires Mul(B(k), u) + low == Mul(Val(x, 0, xt), Val(a, 0, i))
    requires u' == u + Mul(B(0), Mul(a[i], Val(x, k - i, xt + i - k)))
    ensures 0 <= low' <= Mul(if i + 1 < k then i + 1 else k, DV * B(k))
    ensures Mul(B(k), u') + low' == Mul(Val(x, 0, xt), Val(a, 0, i + 1))
  {
    NoDigit(x, 0);
    hide Val;
    hide B;
    hide Mul;
    var d, l, h := a[i], Val(x, 0, k - i), Val(x, k - i, xt + i - k);
    low' := low + Mul(B(i), Mul(d, l));
    ValSplit(x, 0, k - i, xt + i - k);
    ValStep(a, 0, i);
    BAdd(i, k - i);
    MulUnit(Mul(d, h));
    UpperAlgebra(B(i), B(k - i), d, l, h, Val(a, 0, i));
    MulAdd(u, Mul(d, h), B(k));
    MulUnit(DV * B(k));
    if i == k {
      MulUnit(d);
      MulUnit(B(i));
    } else {
      ValBound(x, 0, k - i);
      MulBounds(d, DV, l, B(k - i));
      MulConst(DV, 1, B(k - i));
      MulUnit(B(k - i));
      MulBounds(B(i), B(i), Mul(d, l), DV * B(k - i));
      MulConst(DV, B(i), B(k - i));
      MulAdd(i, 1, DV * B(k));
    }
  }

  lemma UpperAlgebra(bi: int, bki: int, d: int, l: int, h: int, a: int)
    ensures Mul(l + Mul(bki, h), a + Mul(d, bi))
         == Mul(l + Mul(bki, h), a) + Mul(bi, Mul(d, l)) + Mul(Mul(bi, bki), Mul(d, h))
  {
    assert (l + bki * h) * (a + d * bi) == (l + bki * h) * a + (l + bki * h) * (d * bi);
    assert (l + bki * h) * (d * bi) == bi * (d * l) + (bki * h) * (d * bi);
    assert (bki * h) * (d * bi) == (bi * bki) * (d * h);
  }

  lemma UpperQuotient(u: int, low: int, k: nat, q: int, p: int)
    requires Mul(B(k), u) + low == p && 0 <= low <= Mul(k, DV * B(k)) && q == Div(u, DV)
    ensures Mul(q, B(k + 1)) <= p < Mul(q + (k + 1), B(k + 1))
  {
    DivMod(u, DV);
    hide B;
    hide Mul;
    hide Div;
    BStep(k);
    MulDV(q);
    MulComm(B(k), u);
    MulLe(DV * q, u, B(k));
    MulLe(u, DV * q + DV - 1, B(k));
    MulConst(DV, q, B(k));
    MulSub(DV * q + DV, 1, B(k));
    MulAdd(DV * q, DV, B(k));
    MulDV(B(k));
    MulUnit(B(k));
    MulAdd(q, k + 1, DV * B(k));
    MulAdd(k, 1, DV * B(k));
    MulUnit(DV * B(k));
    MulConst(DV, q, B(k));
  }

  /** crypto.js `bnpMultiplyLowerTo`: the lower `n` words of the product. */
  method MultiplyLowerTo(x: BigInteger, a: BigInteger, n: nat, r: BigInteger)
    requires x.Valid() && a.Valid() && x.s == a.s == 0 && r != x && r != a
    modifies r
    ensures r.Normal() && r.s == 0 && r.Value() == Mod(Mul(x.Value(), a.Value()), B(n))
  {
    hide Val;
    hide B;
    hide Mul;
    hide Mod;
    hide ValueOf;
    var len := if x.t + a.t < n then x.t + a.t else n;
    r.s := 0;
    r.t := len;
    ZeroCells(r, len);
    var i := LowerFullRows(x, a, len, r);
    ghost var e := LowerCutRows(x, a, len, if a.t < n then a.t else n, i, r);
    ValBound(r.arr, 0, len);
    if len == n && a.t > n {
      IgnoredRows(x.arr, x.t, a.arr, a.t, n, Val(r.arr, 0, n), e);
    } else {
      LowerDone(Val(r.arr, 0, len), e, len, n, Mul(Val(x.arr, 0, x.t), Val(a.arr, 0, a.t)));
    }
    Unsigned(x.arr, x.t);
    Unsigned(a.arr, a.t);
    Unsigned(r.arr, len);
    r.Clamp();
  }

  /** The first loop of `bnpMultiplyLowerTo`: the rows that fit below word `len`. */
  method LowerFullRows(x: BigInteger, a: BigInteger, len: nat, r: BigInteger) returns (i: nat)
    requires x.Valid() && a.Valid() && r != x && r != a && len <= x.t + a.t
    requires forall j :: 0 <= j < len ==> j in r.arr && r.arr[j] == 0
    modifies r`arr
    ensures i == (if len < x.t then 0 else len - x.t) <= a.t && IsDigits(r.arr, 0, len)
    ensures Val(r.arr, 0, len) == Mul(Val(x.arr, 0, x.t), Val(a.arr, 0, i))
  {
    hide Val;
    hide B;
    hide Mul;
    i := 0;
    ProductNone(x.arr, x.t, a.arr, r.arr, len);
    ValBound(x.arr, 0, x.t);
    while i < len - x.t
      invariant 0 <= i && (i == 0 || i <= len - x.t)
      invariant IsDigits(r.arr, 0, len) && forall j :: x.t + i <= j < len ==> r.arr[j] == 0
      invariant Val(r.arr, 0, len) == Mul(Val(x.arr, 0, x.t), Val(a.arr, 0, i))
    {
      ghost var r0 := r.arr;
      var c := x.Am(0, a.arr[i], r, i, 0, x.t);
      ghost var r1 := r.arr;
      r.arr := r.arr[i + x.t := c];
      RowAdded(r0, r1, r.arr, len, i, x.t, a.arr[i], Val(x.arr, 0, x.t), c);
      ProductGrows(Val(x.arr, 0, x.t), a.arr, i);
      i := i + 1;
    }
  }

  lemma ProductNone(x: Cells, xt: nat, a: Cells, r: Cells, n: nat)
    requires forall j :: 0 <= j < n ==> j in r && r[j] == 0
    ensures Val(r, 0, n) == Mul(Val(x, 0, xt), Val(a, 0, 0))
  {
    ValZero(r, 0, n);
    NoDigit(a, 0);
  }

  lemma ProductGrows(x: int, a: Cells, i: nat)
    ensures Mul(x, Val(a, 0, i + 1)) == Mul(x, Val(a, 0, i)) + Mul(B(i), Mul(Digit(a, i), x))
  {
    hide Val;
    hide B;
    hide Mul;
    ValStep(a, 0, i);
    MulAdd(Val(a, 0, i), Mul(Digit(a, i), B(i)), x);
    MulComm(x, Mul(Digit(a, i), B(i)));
    MulComm(Digit(a, i), B(i));
    MulAssoc(B(i), Digit(a, i), x);
  }

  /** The second loop of `bnpMultiplyLowerTo`: rows cut off at word `len`; `e` counts what is cut. */
  method LowerCutRows(x: BigInteger, a: BigInteger, len: nat, to: nat, i0: nat, r: BigInteger) returns (ghost e: int)
    requires x.Valid() && a.Valid() && r != x && r != a && to <= a.t && i0 <= a.t
    requires (to <= len && len - x.t <= i0) || i0 >= to
    requires IsDigits(r.arr, 0, len) && Val(r.arr, 0, len) == Mul(Val(x.arr, 0, x.t), Val(a.arr, 0, i0))
    modifies r`arr
    ensures IsDigits(r.arr, 0, len) && (i0 >= to ==> e == 0)
    ensures Val(r.arr, 0, len) + Mul(e, B(len)) == Mul(Val(x.arr, 0, x.t), Val(a.arr, 0, if i0 < to then to else i0))
  {
    hide Val;
    hide B;
    hide Mul;
    e := 0;
    MulUnit(B(len));
    var i := i0;
    while i < to
      invariant i0 <= i && (i <= to || i == i0) && (i0 >= to ==> e == 0)
      invariant IsDigits(r.arr, 0, len)
      invariant Val(r.arr, 0, len) + Mul(e, B(len)) == Mul(Val(x.arr, 0, x.t), Val(a.arr, 0, i))
    {
      ghost var r0 := r.arr;
      var c := x.Am(0, a.arr[i], r, i, 0, len - i);
      DigitsPatched(r0, r.arr, i, len, 0, len);
      ValFrame(r0, r.arr, 0, i);
      e := CutRow(x.arr, x.t, a.arr, i, len, r0, r.arr, c, e);
      i := i + 1;
    }
  }

  lemma CutRow(x: Cells, xt: nat, a: Cells, i: nat, n: nat, r0: Cells, r1: Cells, c: int, e: int) returns (e': int)
    requires i < n && n - i <= xt && Val(r1, 0, i) == Val(r0, 0, i)
    requires Val(r1, i, n - i) + Mul(c, B(n - i)) == Val(r0, i, n - i) + Mul(Digit(a, i), Val(x, 0, n - i)) + 0
    requires Val(r0, 0, n) + Mul(e, B(n)) == Mul(Val(x, 0, xt), Val(a, 0, i))
    ensures Val(r1, 0, n) + Mul(e', B(n)) == Mul(Val(x, 0, xt), Val(a, 0, i + 1))
  {
    hide Val;
    hide B;
    hide Mul;
    var d, l, h, p, q := Digit(a, i), Val(x, 0, n - i), Val(x, n - i, xt - (n - i)), B(i), B(n - i);
    e' := e + Mul(d, h) + c;
    ValSplit(x, 0, n - i, xt - (n - i));
    ValSplit(r0, 0, i, n - i);
    ValSplit(r1, 0, i, n - i);
    ProductGrows(Val(x, 0, xt), a, i);
    BAdd(i, n - i);
    CutAlgebra(p, q, d, l, h, c, Val(r0, i, n - i), Val(r1, i, n - i), e);
  }

  lemma CutAlgebra(p: int, q: int, d: int, l: int, h: int, c: int, w0: int, w1: int, e: int)
    requires w1 + Mul(c, q) == w0 + Mul(d, l)
    ensures Mul(p, w1) + Mul(e + Mul(d, h) + c, Mul(p, q)) == Mul(p, w0) + Mul(e, Mul(p, q)) + Mul(p, Mul(d, l + Mul(q, h)))
  {
    assert p * (w1 + c * q) == p * w1 + c * (p * q);
    assert p * (w0 + d * l) == p * w0 + p * (d * l);
    assert p * (d * (l + q * h)) == p * (d * l) + (d * h) * (p * q);
    assert (e + d * h + c) * (p * q) == e * (p * q) + (d * h) * (p * q) + c * (p * q);
  }

  lemma LowerDone(v: int, e: int, len: nat, n: nat, p: int)
    requires 0 <= v < B(len) && len <= n && v + Mul(e, B(len)) == p && (len < n ==> e == 0)
    ensures v == Mod(p, B(n))
  {
    hide B;
    hide Mul;
    hide Mod;
    BMonotonic(len, n);
    MulUnit(B(len));
    MulUnit(B(n));
    FloorDiv(p, B(n), if len < n then 0 else e, v);
  }

  /** Digits of the second factor from `n` up have no effect on the lower `n` words. */
  lemma IgnoredRows(x: Cells, xt: nat, a: Cells, at: nat, n: nat, v: int, e: int)
    requires n < at && 0 <= v < B(n) && v + Mul(e, B(n)) == Mul(Val(x, 0, xt), Val(a, 0, n))
    ensures v == Mod(Mul(Val(x, 0, xt), Val(a, 0, at)), B(n))
  {
    hide Val;
    hide B;
    hide Mul;
    hide Mod;
    var h := Val(a, n, at - n);
    ValSplit(a, 0, n, at - n);
    MulAdd(Val(a, 0, n), Mul(B(n), h), Val(x, 0, xt));
    MulComm(B(n), h);
    MulAssoc(Val(x, 0, xt), h, B(n));
    MulAdd(e, Mul(Val(x, 0, xt), h), B(n));
    FloorDiv(Mul(Val(x, 0, xt), Val(a, 0, at)), B(n), e + Mul(Val(x, 0, xt), h), v);
  }

  /** crypto.js `bnpDAddOffset`: this += n << w words.  Of a normal number it makes one again exactly if it adds
      something or has a digit to add to: adding 0 can leave a number with leading zeros. */
  method DAddOffset(x: BigInteger, n: int, w0: nat)
    requires x.Valid() && x.s == 0 && 0 <= n < DV
    modifies x
    ensures x.Valid() && x.s == 0 && x.Value() == old(x.Value()) + Mul(n, B(w0))
    ensures old(x.Normal()) ==> (x.Normal() <==> n > 0 || old(x.t) > w0)
  {
    hide Val;
    hide B;
    hide Mul;
    ghost var v := x.Value();
    Unsigned(x.arr, x.t);
    PadTo(x, w0);
    ghost var before := x.arr;
    x.arr := x.arr[w0 := x.arr[w0] + n];
    CellAdded(before, x.arr, w0, n, x.t);
    if x.arr[w0] >= DV {
      CarryFrom(x, w0);
    }
    Unsigned(x.arr, x.t);
  }

  /** The first loop of `bnpDAddOffset`: zero digits up to index `w`. */
  method PadTo(x: BigInteger, w: nat)
    requires x.Valid() && x.s == 0
    modifies x
    ensures x.Valid() && x.s == 0 && x.t > w && Val(x.arr, 0, x.t) == old(Val(x.arr, 0, x.t))
    ensures old(x.t) > w ==> x.t == old(x.t) && x.arr == old(x.arr)
    ensures old(x.t) <= w ==> x.t == w + 1 && x.arr[w] == 0
  {
    hide Val;
    hide B;
    hide Mul;
    while x.t <= w
      invariant x.Valid() && x.s == 0 && Val(x.arr, 0, x.t) == old(Val(x.arr, 0, x.t))
      invariant if x.t == old(x.t) then x.arr == old(x.arr) else old(x.t) < x.t <= w + 1 && x.arr[x.t - 1] == 0
    {
      ghost var before := x.arr;
      x.arr := x.arr[x.t := 0];
      x.t := x.t + 1;
      ProductTop(before, x.arr, x.t - 1, 0);
      MulUnit(B(x.t - 1));
    }
  }

  /** The second loop of `bnpDAddOffset`: the digit at `w0` is too large, and carries. */
  method CarryFrom(x: BigInteger, w0: nat)
    requires w0 < x.t && x.s == 0 && w0 in x.arr && DV <= x.arr[w0] < 2 * DV
    requires forall k :: 0 <= k < x.t && k != w0 ==> k in x.arr && 0 <= x.arr[k] < DV
    modifies x
    ensures x.Valid() && x.s == 0 && Val(x.arr, 0, x.t) == old(Val(x.arr, 0, x.t))
    ensures old(x.arr[x.t - 1]) > 0 || w0 == old(x.t) - 1 ==> x.t > 0 && x.arr[x.t - 1] > 0
  {
    hide Val;
    hide B;
    hide Mul;
    var w := w0;
    while x.arr[w] >= DV
      invariant w0 <= w < x.t && x.s == 0 && w in x.arr && 0 <= x.arr[w] < 2 * DV
      invariant forall k :: 0 <= k < x.t && k != w ==> k in x.arr && 0 <= x.arr[k] < DV
      invariant Val(x.arr, 0, x.t) == old(Val(x.arr, 0, x.t))
      invariant old(x.arr[x.t - 1]) > 0 || w0 == old(x.t) - 1 ==> x.arr[x.t - 1] > 0
      decreases x.t - w, x.arr[w] >= DV
    {
      ghost var cells := x.arr;
      x.arr := x.arr[w := x.arr[w] - DV];
      w := w + 1;
      if w >= x.t {
        x.arr := x.arr[x.t := 0];
        x.t := x.t + 1;
        ProductTop(cells, cells[w := 0], w, 0);
        MulUnit(B(w));
        cells := cells[w := 0];
      }
      x.arr := x.arr[w := x.arr[w] + 1];
      assert x.arr == cells[w - 1 := cells[w - 1] - DV][w := cells[w] + 1];
      CarryMove(cells, x.arr, w - 1, x.t);
    }
  }

  /** Adding 0 to zero leaves a zero of one digit. */
  method ZeroPlusZero() returns (x: BigInteger)
    ensures x.Valid() && x.Value() == 0 && !x.Normal()
  {
    x := new BigInteger();
    DAddOffset(x, 0, 0);
    MulUnit(B(0));
  }

  lemma CellAdded(a: Cells, b: Cells, w: nat, n: int, t: nat)
    requires w < t && w in a && b == a[w := a[w] + n]
    ensures Val(b, 0, t) == Val(a, 0, t) + Mul(n, B(w))
  {
    hide Val;
    hide B;
    hide Mul;
    CellParts(a, w, t);
    CellParts(b, w, t);
    CellFrame(a, b, w, n, t);
    MulAdd(Digit(a, w), n, B(w));
  }

  lemma CellParts(a: Cells, w: nat, t: nat)
    requires w < t
    ensures Val(a, 0, t) == Val(a, 0, w) + Mul(Digit(a, w), B(w)) + Mul(B(w + 1), Val(a, w + 1, t - w - 1))
  {
    hide Val;
    hide B;
    hide Mul;
    ValSplit(a, 0, w + 1, t - w - 1);
    ValStep(a, 0, w);
  }

  lemma CellFrame(a: Cells, b: Cells, w: nat, n: int, t: nat)
    requires w < t && w in a && b == a[w := a[w] + n]
    ensures Val(b, 0, w) == Val(a, 0, w) && Val(b, w + 1, t - w - 1) == Val(a, w + 1, t - w - 1)
    ensures Digit(b, w) == Digit(a, w) + n
  {
    ValFrame(a, b, 0, w);
    ValFrame(a, b, w + 1, t - w - 1);
  }

  /** The quotient estimate `q` is never too big, and too small by less than t + 3. */
  lemma EstimateBounds(x: int, m: int, t: nat, r: int, mu: int, q: int)
    requires t > 0 && B(t - 1) <= m < B(t) && 0 <= x < B(2 * t)
    requires r == Div(x, B(t - 1)) && mu == Div(B(2 * t), m)
    requires Mul(q, B(t + 1)) <= Mul(mu, r) < Mul(q + (t + 1), B(t + 1))
    ensures Mul(q, m) <= x < Mul(q + (t + 3), m)
  {
    hide Mul;
    hide Div;
    hide B;
    var b, c, d := B(t - 1), B(t + 1), B(2 * t);
    DivNonNegative(x, b);
    DivNonNegative(d, m);
    BAdd(t - 1, t + 1);
    BMonotonic(t, 2 * t);
    EstimateLow(x, m, b, c, r, mu, q);
    EstimateHigh(x, m, b, c, r, mu, q + (t + 1));
    MulAdd(q + (t + 1), 2, m);
    MulConst(2, 1, m);
    MulUnit(m);
  }

  lemma EstimateLow(x: int, m: int, b: int, c: int, r: int, mu: int, q: int)
    requires m > 0 && b > 0 && c > 0 && Mul(r, b) <= x && Mul(mu, m) <= Mul(b, c) && r >= 0
    requires Mul(q, c) <= Mul(mu, r)
    ensures Mul(q, m) <= x
  {
    hide Mul;
    // q * c * m <= mu * r * m <= r * (b * c) <= x * c
    MulLe(Mul(q, c), Mul(mu, r), m);
    MulComm(mu, r);
    MulAssoc(r, mu, m);
    MulLe(Mul(mu, m), Mul(b, c), r);
    MulAssoc(r, b, c);
    MulLe(Mul(r, b), x, c);
    MulComm(q, c);
    MulAssoc(c, q, m);
    MulComm(c, Mul(q, m));
    if Mul(q, m) > x {
      MulLess(x, Mul(q, m), c);
    }
  }

  lemma EstimateHigh(x: int, m: int, b: int, c: int, r: int, mu: int, q: int)
    requires 0 < b <= m && c > 0 && 0 <= x < Mul(b, c) && x < Mul(r, b) + b && r >= 0
    requires Mul(b, c) < Mul(mu, m) + m && m <= Mul(b, c) && Mul(mu, r) < Mul(q, c) && mu >= 0
    ensures x < Mul(q, m) + 2 * m
  {
    hide Mul;
    var d := Mul(b, c);
    if x < b {
      MulBounds(0, mu, 0, r);
      MulUnit(0);
      MulUnit(c);
      MulBounds(mu, mu, r, r);
      if q < 0 { MulLess(q, 0, c); }
      MulLe(0, q, m);
      MulUnit(m);
    } else {
      // (x - b) * (d - m) <= (r * b) * (mu * m) == (mu * r) * (b * m) < (q * c) * (b * m)
      MulBounds(x - b, Mul(r, b), d - m, Mul(mu, m));
      FourFactors(r, b, mu, m);
      MulLess(0, m, b);
      MulUnit(b);
      MulLess(Mul(mu, r), Mul(q, c), Mul(b, m));
      FourFactors(q, c, b, m);
      MulSub(x, b, d - m);
      MulSub(d, m, x);
      MulSub(d, m, b);
      MulLess(x, d, m);
      MulLe(b, m, d);
      MulComm(x, m);
      MulComm(b, d);
      MulComm(d, m);
      MulComm(b, m);
      if x >= Mul(q, m) + 2 * m {
        MulLe(Mul(q, m) + 2 * m, x, d);
        MulAdd(Mul(q, m), 2 * m, d);
        MulConst(2, m, d);
      }
    }
  }

  lemma FourFactors(a: int, b: int, c: int, d: int)
    ensures Mul(Mul(a, b), Mul(c, d)) == Mul(Mul(c, a), Mul(b, d))
    ensures Mul(Mul(a, b), Mul(c, d)) == Mul(Mul(a, d), Mul(c, b))
  {
    assert (a * b) * (c * d) == (c * a) * (b * d) == (a * d) * (c * b);
  }

  /** `x` taken modulo 2^(28 n) by forgetting its higher words. */
  method Truncate(x: BigInteger, n: nat)
    requires x.Normal() && x.s == 0
    modifies x
    ensures x.Normal() && x.s == 0 && x.Value() == Mod(old(x.Value()), B(n))
  {
    hide Val;
    hide B;
    hide Mul;
    hide Mod;
    Unsigned(x.arr, x.t);
    ValBound(x.arr, 0, x.t);
    if x.t > n {
      ValSplit(x.arr, 0, n, x.t - n);
      ValBound(x.arr, 0, n);
      MulComm(B(n), Val(x.arr, n, x.t - n));
      FloorDiv(x.Value(), B(n), Val(x.arr, n, x.t - n), Val(x.arr, 0, n));
      x.t := n;
      Unsigned(x.arr, n);
      x.Clamp();
    } else {
      BMonotonic(x.t, n);
      MulUnit(B(n));
      FloorDiv(x.Value(), B(n), 0, x.Value());
    }
  }

  /** `x - y` modulo `b`, when the difference is known to be below `b`. */
  lemma TruncatedDifference(x: int, y: int, b: int)
    requires b > 0 && 0 <= x - y < b
    ensures x - y == Mod(x, b) - Mod(y, b) + (if Mod(x, b) < Mod(y, b) then b else 0)
  {
    DivMod(x, b);
    DivMod(y, b);
    hide Mul;
    hide Div;
    hide Mod;
    MulSub(Div(x, b), Div(y, b), b);
    MulUnit(b);
    var d := Mod(x, b) - Mod(y, b);
    if d >= 0 {
      DivModUnique(b, Div(x, b) - Div(y, b), d, 0, x - y);
    } else {
      MulAdd(Div(x, b) - Div(y, b), -1, b);
      DivModUnique(b, Div(x, b) - Div(y, b) + -1, d + b, 0, x - y);
    }
  }

  /** crypto.js `barrettReduce`: x modulo m, for 0 <= x of at most twice the length of m. */
  method BarrettReduce(z: Reducer, x: BigInteger)
    requires z.Barrett? && ValidBarrett(z) && x != z.m && x != z.mu && x != z.r2 && x != z.q3
    requires x.Normal() && x.s == 0 && x.t <= 2 * z.m.t
    modifies x, z.r2, z.q3
    ensures ValidBarrett(z) && x.Normal() && x.Value() == Mod(old(x.Value()), z.m.Value())
  {
    hide Val;
    hide B;
    hide Mul;
    hide Div;
    hide Mod;
    hide ValueOf;
    ghost var v, m, t := x.Value(), z.m.Value(), z.m.t;
    x.DRShiftTo(z.m.t - 1, z.r2);
    BarrettSizes(x.arr, x.t, z.m.arr, t, z.mu.arr, z.mu.t);
    Truncate(x, z.m.t + 1);
    MultiplyUpperTo(z.mu, z.r2, z.m.t + 1, z.q3);
    ghost var q := z.q3.Value();
    EstimateBounds(v, m, t, z.r2.Value(), z.mu.Value(), q);
    MultiplyLowerTo(z.m, z.q3, z.m.t + 1, z.r2);
    RemainderFits(v, m, t, q);
    BarrettDifference(x, z.r2, z.m.t + 1, v, Mul(m, q));
    SubtractWhileLarge(x, z.m, v, q);
  }

  /** What the lengths of the operands of `barrettReduce` say about their values. */
  lemma BarrettSizes(x: Cells, xt: nat, m: Cells, t: nat, mu: Cells, mt: nat)
    requires Compare.Clamped(x, xt, 0) && xt <= 2 * t
    requires Compare.Clamped(m, t, 0) && t > 0 && ValueOf(m, t, 0) > 0
    requires Compare.Clamped(mu, mt, 0) && ValueOf(mu, mt, 0) == Div(B(2 * t), ValueOf(m, t, 0))
    ensures 0 <= ValueOf(x, xt, 0) < B(2 * t) && B(t - 1) <= ValueOf(m, t, 0) < B(t) && mt >= t + 1
  {
    hide Val;
    hide B;
    hide Mul;
    hide Div;
    hide ValueOf;
    Compare.Bounds(x, xt, 0);
    BMonotonic(xt, 2 * t);
    Compare.Bounds(m, t, 0);
    Compare.Bounds(mu, mt, 0);
    var v := ValueOf(m, t, 0);
    DivNonNegative(B(2 * t), v);
    BAdd(t, t);
    if mt <= t {
      BMonotonic(mt, t);
      MulLe(ValueOf(mu, mt, 0) + 1, B(t), v);
      MulAdd(ValueOf(mu, mt, 0), 1, v);
      MulUnit(v);
      MulLess(v, B(t), B(t));
    }
  }

  lemma RemainderFits(x: int, m: int, t: nat, q: int)
    requires t + 3 <= DV && 0 < m < B(t) && Mul(q, m) <= x < Mul(q + (t + 3), m)
    ensures 0 <= x - Mul(m, q) < B(t + 1)
  {
    hide B;
    hide Mul;
    BStep(t);
    MulComm(m, q);
    MulAdd(q, t + 3, m);
    MulLe(t + 3, DV, m);
    MulDV(m);
  }

  /** The two truncated numbers are subtracted after a word is borrowed if there is need, which is at
      most once. */
  method BarrettDifference(x: BigInteger, y: BigInteger, w: nat, ghost v: int, ghost p: int)
    requires x != y && x.Normal() && y.Normal() && x.s == 0 && y.s == 0
    requires x.Value() == Mod(v, B(w)) && y.Value() == Mod(p, B(w)) && 0 <= v - p < B(w)
    modifies x
    ensures x.Normal() && x.Value() == v - p
  {
    hide Val;
    hide B;
    hide Mul;
    hide Mod;
    hide ValueOf;
    TruncatedDifference(v, p, B(w));
    MulUnit(B(w));
    var c := x.CompareTo(y);
    Compare.CompareOrders(x.arr, x.t, x.s, y.arr, y.t, y.s);
    while c < 0
      invariant x.Normal() && x.s == 0 && (c < 0 <==> x.Value() < y.Value())
      invariant x.Value() == Mod(v, B(w)) || (Mod(v, B(w)) < Mod(p, B(w)) && x.Value() == Mod(v, B(w)) + B(w))
      decreases y.Value() - x.Value()
    {
      DAddOffset(x, 1, w);
      c := x.CompareTo(y);
      Compare.CompareOrders(x.arr, x.t, x.s, y.arr, y.t, y.s);
    }
    x.SubTo(y, x);
  }

  /** The last loop of `barrettReduce`. */
  method SubtractWhileLarge(x: BigInteger, m: BigInteger, ghost v: int, ghost q: int)
    requires Modulus(m) && x != m && x.Normal() && x.Value() == v - Mul(m.Value(), q) >= 0
    modifies x
    ensures x.Normal() && x.Value() == Mod(v, m.Value())
  {
    hide Val;
    hide B;
    hide Mul;
    hide Mod;
    hide Cong;
    hide ValueOf;
    MulComm(m.Value(), q);
    MulNeg(q, m.Value());
    CongIntro(x.Value(), v, -q, m.Value());
    Compare.Bounds(x.arr, x.t, x.s);
    var c := x.CompareTo(m);
    Compare.CompareOrders(x.arr, x.t, x.s, m.arr, m.t, m.s);
    while c >= 0
      invariant x.Normal() && x.s == 0 && x.Value() >= 0 && Cong(x.Value(), v, m.Value())
      invariant c >= 0 <==> x.Value() >= m.Value()
      decreases x.Value()
    {
      MulUnit(m.Value());
      CongIntro(x.Value() - m.Value(), x.Value(), -1, m.Value());
      CongTrans(x.Value() - m.Value(), x.Value(), v, m.Value());
      x.SubTo(m, x);
      Compare.Bounds(x.arr, x.t, x.s);
      c := x.CompareTo(m);
      Compare.CompareOrders(x.arr, x.t, x.s, m.arr, m.t, m.s);
    }
    CongSmall(x.Value(), v, m.Value());
  }

  /** crypto.js `Barrett`: the constructor. */
  method NewBarrett(m: BigInteger) returns (z: Reducer)
    requires Modulus(m) && m.t + 3 <= DV
    ensures z.Barrett? && z.m == m && fresh(z.mu) && fresh(z.r2) && fresh(z.q3) && ValidBarrett(z)
  {
    hide Val;
    hide B;
    hide Mul;
    hide Div;
    hide ValueOf;
    var r2 := new BigInteger();
    var q3 := new BigInteger();
    var mu := new BigInteger();
    var one := new BigInteger();
    one.FromInt(1);
    one.DLShiftTo(2 * m.t, r2);
    MulUnit(B(2 * m.t));
    TruncOfAbs(B(2 * m.t), m.Value());
    OneShifted(one.arr, one.t, one.s);
    DivRemTo(r2, m, mu, null);
    DivNonNegative(B(2 * m.t), m.Value());
    Compare.Bounds(mu.arr, mu.t, mu.s);
    z := Barrett(m, mu, r2, q3);
  }

  lemma OneShifted(a: Cells, t: nat, s: int)
    requires Compare.Clamped(a, t, s) && ValueOf(a, t, s) == 1
    ensures t > 0
  {
    if t == 0 { NoDigit(a, 0); }
  }

  /** crypto.js `barrettConvert`: x modulo m; a number that is in range is not copied. */
  method BarrettConvert(z: Reducer, x: BigInteger) returns (r: BigInteger)
    requires z.Barrett? && ValidBarrett(z) && x != z.r2 && x != z.q3 && x.Normal()
    modifies z.r2, z.q3
    ensures ValidBarrett(z) && r.Normal() && r.Value() == Mod(x.Value(), z.m.Value())
    ensures r == x || fresh(r)
  {
    hide Val;
    hide B;
    hide Mul;
    hide Div;
    hide Mod;
    hide ValueOf;
    if x.s < 0 || x.t > 2 * z.m.t {
      r := Modulo(x, z.m);
      return;
    }
    Compare.Bounds(x.arr, x.t, x.s);
    var c := x.CompareTo(z.m);
    Compare.CompareOrders(x.arr, x.t, x.s, z.m.arr, z.m.t, z.m.s);
    if c < 0 {
      MulUnit(z.m.Value());
      FloorDiv(x.Value(), z.m.Value(), 0, x.Value());
      r := x;
    } else {
      r := new BigInteger();
      x.CopyTo(r);
      BarrettReduce(z, r);
    }
  }
}
