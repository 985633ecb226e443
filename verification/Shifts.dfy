/** Shifts by bits, and the bit length that chooses them. */
module Shifts {
  import opened JsNumber
  import opened Digits
  import opened BigIntegers

  /** crypto.js `nbits`: for a positive 32-bit number, the place of its highest bit. */
  method NBits(x0: nat) returns (r: nat)
    requires x0 < TWO32
    ensures 1 <= r <= 32
    ensures x0 < Pow2(r)
    ensures x0 > 0 ==> Pow2(r - 1) <= x0
  {
    Powers();
    var x, t := x0, 0;
    r := 1;
    t := ShiftUnsigned(x, 0x10000);
    if t != 0 { x := t; r := r + 16; }
    t := Sar(x, 0x100);
    if t != 0 { x := t; r := r + 8; }
    t := Sar(x, 0x10);
    if t != 0 { x := t; r := r + 4; }
    t := Sar(x, 4);
    if t != 0 { x := t; r := r + 2; }
    t := Sar(x, 2);
    if t != 0 { x := t; r := r + 1; }
  }

  lemma Powers()
    ensures Pow2(0) == 1 && Pow2(1) == 2 && Pow2(2) == 4 && Pow2(3) == 8 && Pow2(4) == 0x10
    ensures Pow2(5) == 0x20 && Pow2(6) == 0x40 && Pow2(7) == 0x80 && Pow2(8) == 0x100
    ensures Pow2(9) == 0x200 && Pow2(10) == 0x400 && Pow2(11) == 0x800 && Pow2(12) == 0x1000
    ensures Pow2(13) == 0x2000 && Pow2(14) == 0x4000 && Pow2(15) == 0x8000 && Pow2(16) == 0x1_0000
    ensures Pow2(17) == 0x2_0000 && Pow2(18) == 0x4_0000 && Pow2(19) == 0x8_0000 && Pow2(20) == 0x10_0000
    ensures Pow2(21) == 0x20_0000 && Pow2(22) == 0x40_0000 && Pow2(23) == 0x80_0000 && Pow2(24) == 0x100_0000
    ensures Pow2(25) == 0x200_0000 && Pow2(26) == 0x400_0000 && Pow2(27) == 0x800_0000 && Pow2(28) == DV
    ensures Pow2(29) == 0x2000_0000 && Pow2(30) == 0x4000_0000 && Pow2(31) == TWO31 && Pow2(32) == TWO32
  {}

  lemma {:induction false} Pow2Digits(n: nat)
    ensures Pow2(28 * n) == B(n)
  {
    if n > 0 {
      Pow2Digits(n - 1);
      Powers();
      Pow2Add(28, 28 * (n - 1));
    }
  }

  /** The two parts of a digit that a shift by `bs` bits separates. */
  lemma SplitBits(bs: nat)
    requires bs <= DB
    ensures Pow2(bs) * Pow2(DB - bs) == DV
  {
    Powers();
    Pow2Add(bs, DB - bs);
  }

  /** crypto.js `bnpLShiftTo`: r = this << n; `r` may be this. */
  method LShiftTo(x: BigInteger, n: nat, r: BigInteger)
    requires x.Valid()
    modifies r
    ensures r.Normal() && r.Value() == Mul(old(x.Value()), Pow2(n))
    ensures forall k :: r.t <= k < old(x.t) + n / DB + 1 ==> k in r.arr && r.arr[k] == r.s % DV
  {
    hide Val;
    hide B;
    hide ValueOf;
    hide Mul;
    hide Pow2;
    hide Shifted;
    var bs, ds := n % DB, n / DB;
    var cbs := DB - bs;
    var p, q := Pow2(bs), Pow2(cbs);
    SplitBits(bs);
    ghost var a, t, s := x.arr, x.t, x.s;
    var c := Mask(Shl(x.s, p), DV);
    LShiftStart(a, t, s, r.arr, ds, c, p, q);
    c := LShiftDigits(x, r, ds, c, p, q, bs, if s < 0 then q - 1 else 0);
    ghost var top := r.arr;
    var i := ds - 1;
    while i >= 0
      modifies r`arr
      invariant -1 <= i < ds
      invariant forall k :: i < k < ds ==> k in r.arr && r.arr[k] == 0
      invariant SameOutside(top, r.arr, 0, ds)
    {
      r.arr := r.arr[i := 0];
      i := i - 1;
    }
    r.arr := r.arr[ds := c];
    LShiftEnd(a, t, s, top, r.arr, ds, c, p, bs, n);
    r.t := x.t + ds + 1;
    r.s := x.s;
    assert IsDigits(r.arr, 0, r.t);
    r.Clamp();
  }

  /** The first loop of `bnpLShiftTo`, from the last digit down. */
  method LShiftDigits(x: BigInteger, r: BigInteger, ds: nat, c0: int, p: int, q: int, ghost bs: nat, ghost u0: int)
    returns (c: int)
    requires x.Valid() && p > 0 && q > 0 && p * q == DV && p == Pow2(bs)
    requires c0 == u0 * p && 0 <= u0 < q && Shifted(x.arr, x.t, x.s, r.arr, ds, x.t, c0, p)
    modifies r`arr
    ensures 0 <= c < DV && IsDigits(r.arr, ds + 1, x.t)
    ensures Shifted(old(x.arr), x.t, x.s, r.arr, ds, 0, c, p)
  {
    hide Val;
    hide B;
    hide Pow2;
    hide Shifted;
    ghost var a, t, s, u := x.arr, x.t, x.s, u0;
    c := c0;
    var i: int := x.t;
    while i > 0
      invariant 0 <= i <= t && c == u * p && 0 <= u < q
      invariant KeptFrom(x.arr, a, 0, i)
      invariant IsDigits(r.arr, i + ds + 1, t - i)
      invariant Shifted(a, t, s, r.arr, ds, i, c, p)
    {
      i := i - 1;
      ghost var before, cin := r.arr, c;
      LShiftDigit(x.arr[i], u, p, q, bs);
      r.arr := r.arr[i + ds + 1 := BitOr(Sar(x.arr[i], q), c)];
      c := Shl(Mask(x.arr[i], q), p);
      u := a[i] % q;
      LShiftStep(a, t, s, before, r.arr, ds, i, cin, c, p, q);
    }
    CarryBound(u, p, q);
  }

  lemma CarryBound(u: int, p: int, q: int)
    requires 0 <= u < q && p > 0 && p * q == DV
    ensures 0 <= u * p < DV
  {
    MulLe(u, q - 1, p);
    MulLe(0, u, p);
    MulSub(q, 1, p);
  }

  /** The digits of `a` from `k` up have been shifted into `r`; their low part waits in `c`. */
  ghost predicate Shifted(a: Cells, t: nat, s: int, r: Cells, ds: nat, k: nat, c: int, p: int)
    requires k <= t
  {
    c + DV * (Val(r, ds + k + 1, t - k) + s * B(t - k)) == p * (Val(a, k, t - k) + s * B(t - k))
  }

  lemma LShiftStart(a: Cells, t: nat, s: int, r: Cells, ds: nat, c: int, p: int, q: int)
    requires -1 <= s <= 0 && p > 0 && q > 0 && p * q == DV && c == Mask(Shl(s, p), DV)
    ensures Shifted(a, t, s, r, ds, t, c, p)
    ensures 0 <= c < DV && c == (if s < 0 then q - 1 else 0) * p
  {
    MulLe(1, q, p);
    assert q * p == DV;
    if s < 0 {
      assert c == DV - p || (p == DV && c == 0);
      MulSub(q, 1, p);
    }
  }

  /** One digit: its high part joins the carry without overlap, its low part is the next carry. */
  lemma LShiftDigit(d: int, u: int, p: int, q: int, bs: nat)
    requires 0 <= d < DV && 0 <= u < q && p > 0 && q > 0 && p * q == DV && p == Pow2(bs)
    ensures 0 <= u * p < DV && 0 <= d / q
    ensures BitOr(d / q, u * p) == d / q + u * p < DV
    ensures 0 <= d % q < q && Shl(d % q, p) == (d % q) * p && 0 <= (d % q) * p < DV
  {
    hide Pow2;
    hide BitOr;
    CarryBound(u, p, q);
    CarryBound(d % q, p, q);
    QuotientBound(d, p, q);
    MulLe(u, q - 1, p);
    MulSub(q, 1, p);
    BitOrAdds(u, d / q, bs);
  }

  lemma QuotientBound(d: int, p: int, q: int)
    requires 0 <= d < p * q && q > 0
    ensures 0 <= d / q < p
  {
    assert (d / q) * q <= d;
    if d / q >= p {
      MulLe(p, d / q, q);
    }
  }

  lemma LShiftStep(a: Cells, t: nat, s: int, before: Cells, r: Cells, ds: nat, i: nat, cin: int, c: int, p: int, q: int)
    requires i < t && Shifted(a, t, s, before, ds, i + 1, cin, p)
    requires q > 0 && p * q == DV && i in a
    requires r == before[i + ds + 1 := a[i] / q + cin] && c == (a[i] % q) * p
    ensures Shifted(a, t, s, r, ds, i, c, p)
  {
    hide Val;
    hide B;
    var n := t - i - 1;
    ValLow(a, i, n);
    ValLow(r, ds + i + 1, n);
    ValFrame(before, r, ds + i + 2, n);
    BStep(n);
    var w, h, sn := Val(r, ds + i + 2, n), Val(a, i + 1, n), s * B(n);
    assert s * B(n + 1) == DV * sn by { MulAssoc(s, DV, B(n)); MulAssoc(DV, s, B(n)); }
    LShiftAlgebra(cin, w + sn, p, h + sn, q, a[i] / q, a[i] % q);
  }

  lemma LShiftAlgebra(c: int, w: int, p: int, h: int, q: int, hi: int, lo: int)
    requires c + DV * w == p * h && p * q == DV
    ensures lo * p + DV * ((hi + c) + DV * w) == p * ((hi * q + lo) + DV * h)
  {
    assert p * ((hi * q + lo) + DV * h) == (p * q) * hi + p * lo + DV * (p * h);
  }

  lemma LShiftEnd(a: Cells, t: nat, s: int, top: Cells, r: Cells, ds: nat, c: int, p: int, bs: nat, n: nat)
    requires Shifted(a, t, s, top, ds, 0, c, p)
    requires SameOutside(top, r, 0, ds + 1) && ds in r && r[ds] == c
    requires forall k :: 0 <= k < ds ==> k in r && r[k] == 0
    requires n == DB * ds + bs && p == Pow2(bs)
    ensures ValueOf(r, t + ds + 1, s) == Mul(ValueOf(a, t, s), Pow2(n))
  {
    hide Val;
    hide B;
    hide Pow2;
    ValSplit(r, 0, ds, t + 1);
    ValZero(r, 0, ds);
    ValLow(r, ds, t);
    ValFrame(top, r, ds + 1, t);
    BAdd(ds, t + 1);
    BStep(t);
    Pow2Add(DB * ds, bs);
    Pow2Digits(ds);
    LShiftEndAlgebra(c, Val(r, ds + 1, t), s, B(t), p, ValueOf(a, t, s), B(ds));
  }

  lemma LShiftEndAlgebra(c: int, w: int, s: int, b: int, p: int, v: int, d: int)
    requires c + DV * (w + s * b) == p * v
    ensures d * (c + DV * w) + s * (d * (DV * b)) == v * (d * p)
  {
    assert d * (c + DV * w) + s * (d * (DV * b)) == d * (c + DV * (w + s * b));
    assert d * (p * v) == v * (d * p);
  }

  /** crypto.js `bnpRShiftTo`: r = this >> n, rounding down; `r` may be this. */
  method RShiftTo(x: BigInteger, n: nat, r: BigInteger)
    requires x.Valid()
    modifies r
    ensures r.Normal() && r.Value() == Div(old(x.Value()), Pow2(n))
  {
    hide Val;
    hide B;
    hide ValueOf;
    assert n % DB > 0 ==> Pow2(n % DB) > 1;
    hide Pow2;
    r.s := x.s;
    var ds := n / DB;
    if ds >= x.t {
      RShiftOut(x.arr, x.t, x.s, n, r.arr);
      r.t := 0;
      return;
    }
    var bs := n % DB;
    var cbs := DB - bs;
    var p, q := Pow2(bs), Pow2(cbs);
    SplitBits(bs);
    ghost var a := x.arr;
    RShiftDigits(x, r, ds, p, q, cbs);
    ghost var before := r.arr;
    if bs > 0 {
      RShiftSign(r.arr[x.t - ds - 1], x.s, p, q, cbs);
      r.arr := r.arr[x.t - ds - 1 := BitOr(r.arr[x.t - ds - 1], Shl(Mask(x.s, p), q))];
    }
    RShiftEnd(a, x.t, x.s, before, r.arr, ds, bs, p, q, n);
    r.t := x.t - ds;
    r.Clamp();
  }

  /** The loop of `bnpRShiftTo`: each digit leaves its high part in place and ORs its low part into
      the place below. */
  method RShiftDigits(x: BigInteger, r: BigInteger, ds: nat, p: int, q: int, ghost cbs: nat)
    requires x.Valid() && ds < x.t && p > 0 && q > 0 && p * q == DV && q == Pow2(cbs)
    modifies r`arr
    ensures IsDigits(r.arr, 0, x.t - ds) && r.arr[x.t - ds - 1] < q
    ensures p * Val(r.arr, 0, x.t - ds) + old(x.arr[ds]) % p == Val(old(x.arr), ds, x.t - ds)
  {
    hide Val;
    hide B;
    hide Pow2;
    ghost var a, t, rest := x.arr, x.t, x.arr[ds] % p;
    RShiftDigit(x.arr[ds], 0, p, q, cbs);
    r.arr := r.arr[0 := Sar(x.arr[ds], p)];
    RShiftFirst(a, ds, r.arr, p);
    var i := ds + 1;
    while i < x.t
      invariant ds < i <= t && KeptFrom(x.arr, a, i, t)
      invariant IsDigits(r.arr, 0, i - ds) && r.arr[i - ds - 1] < q
      invariant p * Val(r.arr, 0, i - ds) + rest == Val(a, ds, i - ds)
    {
      ghost var before := r.arr;
      RShiftDigit(x.arr[i], r.arr[i - ds - 1], p, q, cbs);
      var d := x.arr[i];
      r.arr := r.arr[i - ds - 1 := BitOr(r.arr[i - ds - 1], Shl(Mask(d, p), q))];
      r.arr := r.arr[i - ds := Sar(d, p)];
      RShiftStep(a, before, r.arr, ds, i - ds, p, q, rest);
      i := i + 1;
    }
  }

  lemma RShiftDigit(d: int, hi: int, p: int, q: int, cbs: nat)
    requires 0 <= d < DV && 0 <= hi < q && p > 0 && q > 0 && p * q == DV && q == Pow2(cbs)
    ensures 0 <= d / p < q && Shl(Mask(d, p), q) == (d % p) * q && 0 <= (d % p) * q < DV
    ensures BitOr(hi, (d % p) * q) == hi + (d % p) * q < DV
  {
    hide Pow2;
    hide BitOr;
    CarryBound(d % p, q, p);
    QuotientBound(d, q, p);
    MulLe(d % p, p - 1, q);
    MulSub(p, 1, q);
    BitOrAdds(d % p, hi, cbs);
  }

  lemma RShiftFirst(a: Cells, ds: nat, r: Cells, p: int)
    requires p > 0 && ds in a && 0 in r && r[0] == a[ds] / p
    ensures p * Val(r, 0, 1) + a[ds] % p == Val(a, ds, 1)
  {
    ValStep(r, 0, 0);
    ValStep(a, ds, 0);
  }

  lemma RShiftStep(a: Cells, before: Cells, r: Cells, ds: nat, k: nat, p: int, q: int, rest: int)
    requires k > 0 && p > 0 && q > 0 && p * q == DV && ds + k in a && k - 1 in before
    requires r == before[k - 1 := before[k - 1] + (a[ds + k] % p) * q][k := a[ds + k] / p]
    requires p * Val(before, 0, k) + rest == Val(a, ds, k)
    ensures p * Val(r, 0, k + 1) + rest == Val(a, ds, k + 1)
  {
    hide Val;
    hide B;
    var hi, lo, b := a[ds + k] / p, a[ds + k] % p, B(k - 1);
    ValStep(a, ds, k);
    ValStep(r, 0, k);
    ValStep(r, 0, k - 1);
    ValStep(before, 0, k - 1);
    ValFrame(before, r, 0, k - 1);
    BStep(k - 1);
    RShiftAlgebra(Val(before, 0, k - 1), before[k - 1], hi, lo, p, q, b);
  }

  lemma RShiftAlgebra(v: int, d: int, hi: int, lo: int, p: int, q: int, b: int)
    requires p * q == DV
    ensures p * (v + (d + lo * q) * b + hi * (DV * b)) == p * (v + d * b) + (hi * p + lo) * (DV * b)
  {
    assert (d + lo * q) * b == d * b + lo * (q * b);
    assert p * (lo * (q * b)) == lo * ((p * q) * b);
    assert p * (v + d * b + lo * (q * b) + hi * (DV * b))
        == p * (v + d * b) + p * (lo * (q * b)) + p * (hi * (DV * b));
    assert (hi * p + lo) * (DV * b) == p * (hi * (DV * b)) + lo * (DV * b);
  }

  /** The sign word shifted into the last digit. */
  lemma RShiftSign(d: int, s: int, p: int, q: int, cbs: nat)
    requires -1 <= s <= 0 && 0 <= d < q && 1 < p && q > 0 && p * q == DV && q == Pow2(cbs)
    ensures var m := Shl(Mask(s, p), q);
            m == (if s < 0 then DV - q else 0) && 0 <= m && BitOr(d, m) == d + m < DV
  {
    hide Pow2;
    hide BitOr;
    MulLe(2, p, q);
    if s < 0 {
      MulSub(p, 1, q);
      FloorDiv(-1, p, -1, p - 1);
      assert (p - 1) * q == DV - q;
      BitOrAdds(p - 1, d, cbs);
    } else {
      FloorDiv(0, p, 0, 0);
      assert 0 * q == 0;
      BitOrAdds(0, d, cbs);
    }
  }

  lemma RShiftEnd(a: Cells, t: nat, s: int, before: Cells, r: Cells, ds: nat, bs: nat, p: int, q: int, n: nat)
    requires ds < t && IsDigits(a, 0, t) && -1 <= s <= 0 && p > 0 && q > 0 && p * q == DV
    requires n == DB * ds + bs && p == Pow2(bs)
    requires p * Val(before, 0, t - ds) + a[ds] % p == Val(a, ds, t - ds)
    requires t - ds - 1 in before
    requires r == if bs > 0 then before[t - ds - 1 := before[t - ds - 1] + if s < 0 then DV - q else 0] else before
    ensures ValueOf(r, t - ds, s) == Div(ValueOf(a, t, s), Pow2(n))
  {
    var m, rest := t - ds, a[ds] % p;
    RShiftSignValue(before, r, m, s, bs, p, q);
    RShiftWhole(a, t, ds, s);
    hide Val;
    hide B;
    hide Pow2;
    hide ValueOf;
    ValBound(a, 0, ds);
    Pow2Add(DB * ds, bs);
    Pow2Digits(ds);
    RShiftFloor(ValueOf(a, t, s), B(ds), Val(a, 0, ds), p, rest, ValueOf(r, m, s), Val(a, ds, m), s, B(m));
  }

  /** The number as its lowest `ds` digits and the rest. */
  lemma RShiftWhole(a: Cells, t: nat, ds: nat, s: int)
    requires ds <= t
    ensures ValueOf(a, t, s) == Val(a, 0, ds) + B(ds) * Val(a, ds, t - ds) + s * (B(ds) * B(t - ds))
  {
    hide Val;
    hide B;
    ValSplit(a, 0, ds, t - ds);
    BAdd(ds, t - ds);
  }

  /** The sign's bits come in at the top. */
  lemma RShiftSignValue(before: Cells, r: Cells, m: nat, s: int, bs: nat, p: int, q: int)
    requires m > 0 && -1 <= s <= 0 && p > 0 && p * q == DV && p == Pow2(bs) && m - 1 in before
    requires r == if bs > 0 then before[m - 1 := before[m - 1] + if s < 0 then DV - q else 0] else before
    ensures p * ValueOf(r, m, s) == p * Val(before, 0, m) + s * B(m)
  {
    assert bs == 0 ==> p == 1;
    hide *;
    var v, d, d', b := Val(before, 0, m - 1), before[m - 1], r[m - 1], B(m - 1);
    TopDigit(before, m, s);
    TopDigit(r, m, s);
    ValFrame(before, r, 0, m - 1);
    BStep(m - 1);
    SignAlgebra(v, d, s, p, q, b);
  }

  lemma TopDigit(a: Cells, m: nat, s: int)
    requires m > 0 && m - 1 in a
    ensures Val(a, 0, m) == Val(a, 0, m - 1) + a[m - 1] * B(m - 1)
    ensures ValueOf(a, m, s) == Val(a, 0, m - 1) + a[m - 1] * B(m - 1) + s * B(m)
  {
    ValStep(a, 0, m - 1);
  }

  lemma SignAlgebra(v: int, d: int, s: int, p: int, q: int, b: int)
    requires p * q == DV && -1 <= s <= 0
    ensures p * (v + (d + if s < 0 then DV - q else 0) * b + s * (DV * b)) == p * (v + d * b) + s * (DV * b)
  {
    if s < 0 {
      assert (d + (DV - q)) * b == d * b + DV * b - q * b;
      assert p * (q * b) == DV * b;
      assert p * (v + d * b - q * b) == p * (v + d * b) - p * (q * b);
    }
  }

  lemma RShiftFloor(x: int, d: int, low: int, p: int, rest: int, y: int, h: int, s: int, b: int)
    requires d > 0 && 0 <= low < d && p > 0 && 0 <= rest < p
    requires x == low + d * h + s * (d * b)
    requires p * y + rest == h + s * b
    ensures d * p > 0 && Div(x, d * p) == y
  {
    assert d * h + s * (d * b) == d * (h + s * b);
    assert d * (p * y + rest) == (d * p) * y + d * rest;
    assert y * (d * p) == (d * p) * y;
    MulLe(rest, p - 1, d);
    MulLe(0, rest, d);
    MulSub(p, 1, d);
    assert d * rest == rest * d && d * p == p * d;
    MulLe(1, p, d);
    FloorDiv(x, d * p, y, d * rest + low);
  }

  lemma RShiftOut(a: Cells, t: nat, s: int, n: nat, r: Cells)
    requires IsDigits(a, 0, t) && -1 <= s <= 0 && t <= n / DB
    ensures Div(ValueOf(a, t, s), Pow2(n)) == s == ValueOf(r, 0, s)
  {
    ValueOfDef(r, 0, s);
    ColumnStart(r, r, r);
    hide Val;
    hide B;
    hide Pow2;
    ValBound(a, 0, t);
    BMonotonic(t, n / DB);
    Pow2Digits(n / DB);
    Pow2Monotonic(DB * (n / DB), n);
    if s == 0 {
      FloorDiv(ValueOf(a, t, 0), Pow2(n), 0, Val(a, 0, t));
    } else {
      FloorDiv(ValueOf(a, t, -1), Pow2(n), -1, Val(a, 0, t) - B(t) + Pow2(n));
    }
  }
}
