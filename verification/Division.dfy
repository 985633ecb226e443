/** Long division with an estimated quotient digit. */
module Division {
  import opened JsNumber
  import opened Digits
  import opened BigIntegers
  import opened Shifts
  import opened Multiply
  import Compare

  const F1 := 0x100_0000            // 2^(52-28)
  const F2 := 0x10                  // 2^(2*28-52)
  const FV := 0x10_0000_0000_0000   // 2^52

  /** The quotient digit that `divRemTo` guesses from the two leading digits of the remainder and
      the leading 52 bits `yt` of the divisor, with the division done exactly. */
  function Guess(ri: int, ri1: int, y0: int, yt: int): int
    requires yt > 0
  {
    if ri == y0 then DM else (ri * FV + (ri1 + F2) * F1) / yt
  }

  /** `yt` agrees with the divisor `y` to 52 bits, where `u` is the weight of the divisor's leading
      digit. */
  ghost predicate Leading(y0: int, yt: int, y: int, u: int) {
    && 0x800_0000 <= y0 < DV && 0x800_0000 * F1 <= yt && u > 0
    && Mul(yt, u) <= F1 * y < Mul(yt + 1, u)
    && Mul(y0, u) <= y < Mul(y0 + 1, u)
  }

  /** The guess `qd` for `w` divided by `y` is the true digit or one more; and when it is one more,
      the true remainder is so large that its leading digit is not zero. */
  lemma GuessBounds(ri: int, ri1: int, y0: int, yt: int, y: int, u: int, w: int)
    requires Leading(y0, yt, y, u)
    requires 0 <= ri < DV && 0 <= ri1 < DV
    requires Mul(ri * DV + ri1, u) <= w < Mul(ri * DV + ri1 + 1, u) && w < DV * y
    ensures var qd := Guess(ri, ri1, y0, yt);
            && 0 <= qd <= DV && Mul(qd - 1, y) + u <= w < Mul(qd + 1, y)
  {
    if ri == y0 {
      GuessTop(ri1, y0, y, u, w);
    } else {
      GuessLow(ri * DV + ri1, yt, y, u, w);
      GuessFits(ri * DV + ri1, yt, y, u, w);
      GuessHigh(ri * DV + ri1, y0, yt, y, u, w);
      assert Guess(ri, ri1, y0, yt) == ((ri * DV + ri1 + F2) * F1) / yt;
    }
  }

  lemma GuessTop(ri1: int, y0: int, y: int, u: int, w: int)
    requires 0x800_0000 <= y0 < DV && u > 0 && Mul(y0, u) <= y < Mul(y0 + 1, u)
    requires 0 <= ri1 && Mul(y0 * DV + ri1, u) <= w < DV * y
    ensures Mul(DM - 1, y) + u <= w < Mul(DM + 1, y)
  {
    hide Mul;
    MulConst(DM - 1, 1, y);
    MulConst(DM + 1, 1, y);
    MulUnit(y);
    MulLe(y0 * DV, y0 * DV + ri1, u);
    MulConst(DV, y0, u);
    GuessTopGap(y0, u, y);
  }

  lemma GuessTopGap(y0: int, u: int, y: int)
    requires 0x800_0000 <= y0 < DV && u > 0 && Mul(y0, u) <= y < Mul(y0 + 1, u)
    ensures (DV - 2) * y + u <= DV * Mul(y0, u)
  {
    hide Mul;
    MulAdd(y0, 1, u);
    MulUnit(u);
    var z := Mul(y0, u);
    MulLe(0x800_0000, y0, u);
    MulConst(0x800_0000, 1, u);
    assert (DV - 2) * y <= (DV - 2) * (z + u - 1);
    assert (DV - 2) * (z + u - 1) == DV * z - 2 * z + (DV - 2) * u - (DV - 2);
  }

  lemma GuessLow(n: int, yt: int, y: int, u: int, w: int)
    requires n >= 0 && yt > 0 && u > 0 && y >= 0 && Mul(yt, u) <= F1 * y && w < Mul(n + 1, u)
    ensures w < Mul(((n + F2) * F1) / yt + 1, y)
  {
    var e := (n + F2) * F1;
    var qd := e / yt;
    DivMod(e, yt);
    hide Mul;
    MulAdd(qd, 1, yt);
    MulUnit(yt);
    MulLe(F1 * (n + 1), Mul(qd + 1, yt), u);
    MulConst(F1, n + 1, u);
    MulAssoc(qd + 1, yt, u);
    MulLe(Mul(yt, u), F1 * y, qd + 1);
    MulConst(F1, qd + 1, y);
  }

  lemma GuessFits(n: int, yt: int, y: int, u: int, w: int)
    requires n >= 0 && u > 0 && 0x800_0000 * F1 <= yt && F1 * y < Mul(yt + 1, u)
    requires Mul(n, u) <= w < DV * y
    ensures 0 <= ((n + F2) * F1) / yt <= DV
  {
    var e := (n + F2) * F1;
    var qd := e / yt;
    DivMod(e, yt);
    hide Mul;
    MulConst(F1, n, u);
    MulConst(DV, yt + 1, u);
    if F1 * n >= DV * (yt + 1) {
      MulLe(DV * (yt + 1), F1 * n, u);
    }
    if qd > DV {
      MulLe(DV + 1, qd, yt);
      MulConst(DV + 1, 1, yt);
      MulUnit(yt);
    }
  }

  lemma GuessHigh(n: int, y0: int, yt: int, y: int, u: int, w: int)
    requires n >= 0 && Leading(y0, yt, y, u) && Mul(n, u) <= w && ((n + F2) * F1) / yt <= DV
    ensures Mul(((n + F2) * F1) / yt - 1, y) + u <= w
  {
    var e := (n + F2) * F1;
    var qd := e / yt;
    DivMod(e, yt);
    hide Mul;
    MulConst(F1, qd, y);
    MulLe(F1 * y, Mul(yt + 1, u), qd);
    MulAssoc(qd, yt + 1, u);
    MulAdd(yt, 1, qd);
    MulUnit(qd);
    MulLe(Mul(qd, yt) + qd, F1 * n + DV + DV, u);
    MulAdd(F1 * n, DV + DV, u);
    MulConst(F1, n, u);
    MulConst(DV + DV, 1, u);
    MulUnit(u);
    MulLe(0x800_0000, y0, u);
    MulConst(0x800_0000, 1, u);
    MulSub(qd, 1, y);
    MulUnit(y);
  }

  /** The state of the division loop.  The `e` digits of `r` hold, from the top, the quotient digits
      found so far and a remainder that is less than the divisor `y` shifted by `j`. */
  ghost predicate Dividing(r: Cells, rt: nat, e: nat, ys: nat, j: nat, y: int, dividend: int) {
    && IsDigits(r, 0, e) && j + ys <= rt <= e
    && (forall k :: rt <= k < e ==> r[k] == 0)
    && Val(r, 0, j + ys) < Mul(y, B(j))
    && Val(r, 0, j + ys) + Mul(Mul(y, B(j)), Val(r, j + ys, e - j - ys)) == dividend
  }

  /** The body of the loop of `bnpDivRemTo` for the digit at `i = j + ys`; `y` has been replaced by
      its complement, so that `am` subtracts. */
  method DivideDigit(y: BigInteger, r: BigInteger, t: BigInteger, i: nat, j: nat, ys: nat, y0: int, yt: int,
                     ghost yv: int, ghost e: nat, ghost dividend: int)
    requires y != r && r != t && y != t && ys > 0 && i == j + ys
    requires y.Valid() && y.t == ys && y.s == 0 && Val(y.arr, 0, ys) == B(ys) - yv
    requires r.Valid() && r.s == 0
    requires Leading(y0, yt, yv, B(ys - 1)) && 0 < yv < B(ys)
    requires Dividing(r.arr, r.t, e, ys, j + 1, yv, dividend)
    modifies r, t
    ensures r.Valid() && r.s == 0 && Dividing(r.arr, r.t, e, ys, j, yv, dividend)
    ensures old(r.Normal()) ==> r.Normal()
  {
    hide Val;
    hide B;
    hide Mul;
    hide Guess;
    hide Leading;
    hide ValueOf;
    ghost var r0, w, rt0 := r.arr, Val(r.arr, j, ys + 1), r.t;
    DividingDigits(r0, r.t, e, ys, j + 1, yv, dividend);
    assert yt > 0 by { LeadingPositive(y0, yt, yv, B(ys - 1)); }
    WindowGuess(r0, r.t, e, ys, j, y0, yt, yv, dividend);
    hide Dividing;
    var qd := Guess(r.arr[i], r.arr[i - 1], y0, yt);
    var v := r.arr[i];
    var c := y.Am(0, qd, r, j, 0, ys);
    ghost var r1 := r.arr;
    r.arr := r.arr[i := v + c];
    WindowTried(r0, r1, r.arr, y.arr, j, ys, yv, w, qd, c, e);
    TopStays(r0, r.arr, j, ys, yv, qd);
    if r.arr[i] < qd {
      Correct(y, r, t, j, yv, e);
      MulSub(qd, 1, yv);
      MulUnit(yv);
      qd := qd - 1;
      // `divRemTo` goes on subtracting while r[i] < qd: one correction is always enough.
      assert r.arr[i] == qd;
    }
    DigitDone(r0, rt0, r.arr, r.t, e, ys, j, yv, dividend, qd);
  }

  /** The divisor subtracted once too often: its shifted complement comes off again. */
  method Correct(y: BigInteger, r: BigInteger, t: BigInteger, j: nat, ghost yv: int, ghost e: nat)
    requires y != r && r != t && y != t && y.Valid() && y.t > 0 && y.s == 0 && r.Valid() && r.s == 0
    requires Val(y.arr, 0, y.t) == B(y.t) - yv && 0 < yv < B(y.t)
    requires j + y.t < r.t <= e && IsDigits(r.arr, 0, e) && forall k :: r.t <= k < e ==> r.arr[k] == 0
    requires B(y.t) - yv + B(y.t - 1) <= Val(r.arr, j, y.t) < B(y.t)
    modifies r, t
    ensures r.Normal() && r.s == 0 && IsDigits(r.arr, 0, e) && j + y.t <= r.t <= e
    ensures forall k :: r.t <= k < e ==> r.arr[k] == 0
    ensures Val(r.arr, 0, j) == old(Val(r.arr, 0, j))
    ensures Val(r.arr, j, y.t) == old(Val(r.arr, j, y.t)) - (B(y.t) - yv)
    ensures forall k :: j + y.t <= k < e ==> r.arr[k] == old(r.arr[k])
  {
    hide Val;
    hide B;
    hide Mul;
    hide ValueOf;
    ghost var r2, rt0 := r.arr, r.t;
    y.DLShiftTo(j, t);
    Unsigned(y.arr, y.t);
    r.SubTo(t, r);
    Corrected(r2, r.arr, rt0, r.t, r.s, e, j, y.t, yv);
  }

  lemma LeadingPositive(y0: int, yt: int, y: int, u: int)
    requires Leading(y0, yt, y, u)
    ensures yt > 0 && y > 0
  {
    MulLe(1, y0, u);
  }

  lemma DividingDigits(r: Cells, rt: nat, e: nat, ys: nat, j: nat, y: int, dividend: int)
    requires Dividing(r, rt, e, ys, j, y, dividend)
    ensures IsDigits(r, 0, e) && j + ys <= rt <= e && forall k :: rt <= k < e ==> r[k] == 0
  {}

  /** The guess, for the window of `ys + 1` digits that the loop looks at. */
  lemma WindowGuess(r: Cells, rt: nat, e: nat, ys: nat, j: nat, y0: int, yt: int, y: int, dividend: int)
    requires ys > 0 && Leading(y0, yt, y, B(ys - 1)) && Dividing(r, rt, e, ys, j + 1, y, dividend)
    ensures yt > 0
    ensures var qd, w := Guess(r[j + ys], r[j + ys - 1], y0, yt), Val(r, j, ys + 1);
            && 0 <= qd <= DV && Mul(qd - 1, y) + B(ys - 1) <= w < Mul(qd + 1, y) && 0 <= w < DV * y
  {
    hide Val;
    hide B;
    hide Mul;
    hide Guess;
    var w, u, n := Val(r, j, ys + 1), B(ys - 1), r[j + ys] * DV + r[j + ys - 1];
    ValSplit(r, 0, j, ys + 1);
    ValBound(r, 0, j);
    ValBound(r, j, ys + 1);
    BStep(j);
    MulConst(DV, y, B(j));
    MulComm(B(j), w);
    if w >= DV * y {
      MulLe(DV * y, w, B(j));
    }
    ValSplit(r, j, ys - 1, 2);
    ValBound(r, j, ys - 1);
    ValLow(r, j + ys - 1, 1);
    OneDigit(r, j + ys);
    assert Val(r, j + ys - 1, 2) == n;
    MulComm(u, n);
    MulAdd(n, 1, u);
    MulUnit(u);
    LeadingPositive(y0, yt, y, u);
    GuessBounds(r[j + ys], r[j + ys - 1], y0, yt, y, u, w);
  }

  /** After `am`: either the guess was right, or the borrow shows in the leading digit. */
  lemma WindowTried(r0: Cells, r1: Cells, r2: Cells, neg: Cells, j: nat, ys: nat, y: int, w: int, qd: int, c: int, e: nat)
    requires ys > 0 && j + ys < e && IsDigits(r0, 0, e) && IsDigits(r1, j, ys) && SameOutside(r0, r1, j, j + ys)
    requires 0 < y < B(ys) && Val(neg, 0, ys) == B(ys) - y && w == Val(r0, j, ys + 1)
    requires Val(r1, j, ys) + Mul(c, B(ys)) == Val(r0, j, ys) + Mul(qd, Val(neg, 0, ys)) + 0
    requires 0 <= qd <= DV && Mul(qd - 1, y) + B(ys - 1) <= w < Mul(qd + 1, y) && 0 <= w < DV * y
    requires r2 == r1[j + ys := r0[j + ys] + c]
    ensures IsDigits(r2, 0, e) && qd - 1 <= r2[j + ys] <= qd
    ensures Val(r2, j, ys) == w - Mul(qd, y) + (if r2[j + ys] < qd then B(ys) else 0)
    ensures r2[j + ys] == qd ==> 0 <= Val(r2, j, ys) < y
    ensures r2[j + ys] < qd ==> B(ys) > Val(r2, j, ys) >= B(ys) - y + B(ys - 1)
    ensures Val(r2, 0, j) == Val(r0, 0, j)
    ensures Val(r2, j + ys + 1, e - j - ys - 1) == Val(r0, j + ys + 1, e - j - ys - 1)
    ensures forall k :: j + ys < k < e ==> r2[k] == r0[k]
  {
    hide Val;
    hide B;
    hide Mul;
    var b, x := B(ys), r0[j + ys] + c;
    ValStep(r0, j, ys);
    MulSub(b, y, qd);
    MulAdd(r0[j + ys], c, b);
    MulSub(x, qd, b);
    MulComm(qd, b);
    MulAdd(qd, 1, y);
    MulSub(qd, 1, y);
    MulUnit(y);
    ValBound(r1, j, ys);
    assert Val(r1, j, ys) + Mul(x - qd, b) == w - Mul(qd, y);
    TriedDigit(Val(r1, j, ys), x - qd, b, w - Mul(qd, y), y);
    if x == qd {
      if qd >= DV {
        MulLe(DV, qd, y);
        MulConst(DV, 1, y);
      }
    } else if qd == 0 {
      MulUnit(y);
    }
    WindowFrame(r0, r1, r2, j, ys, e, x);
  }

  /** A leading digit of the remainder that is not zero is replaced by a quotient digit that is not
      zero. */
  lemma TopStays(r0: Cells, r2: Cells, j: nat, ys: nat, y: int, qd: int)
    requires IsDigits(r0, j, ys + 1) && j + ys in r2 && y < B(ys)
    requires r2[j + ys] == qd ==> Val(r2, j, ys) == Val(r0, j, ys + 1) - Mul(qd, y) < y
    ensures r2[j + ys] == qd && r0[j + ys] != 0 ==> qd != 0
  {
    hide Val;
    hide B;
    hide Mul;
    ValStep(r0, j, ys);
    ValBound(r0, j, ys);
    MulUnit(y);
    MulUnit(B(ys));
    if r0[j + ys] != 0 {
      MulLe(1, r0[j + ys], B(ys));
    }
  }

  lemma TriedDigit(v: int, d: int, b: int, z: int, y: int)
    requires 0 <= v < b && v + Mul(d, b) == z && -y <= z < y < b
    ensures if z >= 0 then d == 0 && v == z else d == -1 && v == z + b
  {
    hide Mul;
    MulUnit(b);
    DivModUnique(b, d, v, if z >= 0 then 0 else -1, if z >= 0 then z else z + b);
  }

  lemma WindowFrame(r0: Cells, r1: Cells, r2: Cells, j: nat, ys: nat, e: nat, x: int)
    requires j + ys < e && IsDigits(r0, 0, e) && IsDigits(r1, j, ys) && SameOutside(r0, r1, j, j + ys)
    requires r2 == r1[j + ys := x] && 0 <= x < DV
    ensures IsDigits(r2, 0, e)
    ensures Val(r2, 0, j) == Val(r0, 0, j) && Val(r2, j, ys) == Val(r1, j, ys)
    ensures Val(r2, j + ys + 1, e - j - ys - 1) == Val(r0, j + ys + 1, e - j - ys - 1)
    ensures forall k :: j + ys < k < e ==> r2[k] == r0[k]
  {
    hide Val;
    hide B;
    DigitsPatched(r0, r1, j, j + ys, 0, e);
    forall k | j + ys < k < e
      ensures r2[k] == r0[k]
    {
      assert Digit(r1, k) == Digit(r0, k);
    }
    ValFrame(r2, r0, 0, j);
    ValFrame(r2, r1, j, ys);
    ValFrame(r2, r0, j + ys + 1, e - j - ys - 1);
  }

  lemma ValPad(r: Cells, m: nat, n: nat)
    requires m <= n && forall k :: m <= k < n ==> k in r && r[k] == 0
    ensures Val(r, 0, n) == Val(r, 0, m)
  {
    hide Val;
    hide B;
    hide Mul;
    ValSplit(r, 0, m, n - m);
    ValZero(r, m, n - m);
    MulUnit(B(m));
  }

  /** Subtracting the complement of the divisor adds the divisor back to the window, and the
      leading digit of what it leaves there is not zero, so that `clamp` stops above it. */
  lemma Corrected(r2: Cells, r3: Cells, rt0: nat, rt: nat, s: int, e: nat, j: nat, ys: nat, y: int)
    requires ys > 0 && j + ys < rt0 <= e && IsDigits(r2, 0, e) && forall k :: rt0 <= k < e ==> r2[k] == 0
    requires Compare.Clamped(r3, rt, s) && rt <= rt0 && SameOutside(r2, r3, 0, rt0)
    requires forall k :: rt <= k < rt0 ==> k in r3 && r3[k] == s % DV
    requires 0 < y < B(ys) && B(ys) - y + B(ys - 1) <= Val(r2, j, ys) < B(ys)
    requires ValueOf(r3, rt, s) == ValueOf(r2, rt0, 0) - Mul(B(ys) - y, B(j))
    ensures s == 0 && IsDigits(r3, 0, e) && j + ys <= rt && forall k :: rt <= k < e ==> r3[k] == 0
    ensures Val(r3, 0, j) == Val(r2, 0, j) && Val(r3, j, ys) == Val(r2, j, ys) - (B(ys) - y)
    ensures forall k :: j + ys <= k < e ==> r3[k] == r2[k]
  {
    hide Val;
    hide B;
    hide Mul;
    hide ValueOf;
    var d, h := B(ys) - y, Val(r2, j + ys, rt0 - j - ys);
    Unsigned(r2, rt0);
    ValSplit(r2, 0, j, rt0 - j);
    ValSplit(r2, j, ys, rt0 - j - ys);
    ValBound(r2, 0, j);
    ValBound(r2, j + ys, rt0 - j - ys);
    MulLe(0, h, B(ys));
    MulUnit(B(ys));
    MulComm(d, B(j));
    MulSub(Val(r2, j, ys) + Mul(B(ys), h), d, B(j));
    MulLe(B(ys - 1), Val(r2, j, ys) + Mul(B(ys), h) - d, B(j));
    BAdd(j, ys - 1);
    Compare.Bounds(r3, rt, s);
    if rt < j + ys {
      BMonotonic(rt, j + ys - 1);
    }
    Unsigned(r3, rt);
    ValPad(r3, rt, rt0);
    assert IsDigits(r3, 0, rt0);
    Extract(r2, r3, rt0, j, ys, d);
    forall k | rt0 <= k < e
      ensures k in r3 && r3[k] == r2[k]
    {
      assert Digit(r3, k) == Digit(r2, k);
    }
  }

  lemma Extract(r2: Cells, r3: Cells, n: nat, j: nat, ys: nat, d: int)
    requires j + ys <= n && IsDigits(r2, 0, n) && IsDigits(r3, 0, n)
    requires 0 <= Val(r2, j, ys) - d && d >= 0 && Val(r3, 0, n) == Val(r2, 0, n) - Mul(B(j), d)
    ensures Val(r3, 0, j) == Val(r2, 0, j) && Val(r3, j, ys) == Val(r2, j, ys) - d
    ensures forall k :: j + ys <= k < n ==> r3[k] == r2[k]
  {
    hide Val;
    hide B;
    hide Mul;
    var m := n - j - ys;
    ThreeParts(r2, n, j, ys);
    ThreeParts(r3, n, j, ys);
    ExtractParts(B(j), B(ys), Val(r2, 0, j), Val(r2, j, ys), Val(r2, j + ys, m),
                 Val(r3, 0, j), Val(r3, j, ys), Val(r3, j + ys, m), d);
    ValUnique(r2, r3, j + ys, m);
  }

  lemma ThreeParts(r: Cells, n: nat, j: nat, ys: nat)
    requires j + ys <= n && IsDigits(r, 0, n)
    ensures Val(r, 0, n) == Val(r, 0, j) + Mul(B(j), Val(r, j, ys) + Mul(B(ys), Val(r, j + ys, n - j - ys)))
    ensures 0 <= Val(r, 0, j) < B(j) && 0 <= Val(r, j, ys) < B(ys)
  {
    hide Val;
    hide B;
    hide Mul;
    ValSplit(r, 0, j, n - j);
    ValSplit(r, j, ys, n - j - ys);
    ValBound(r, 0, j);
    ValBound(r, j, ys);
  }

  lemma ExtractParts(p: int, q: int, l2: int, w2: int, h2: int, l3: int, w3: int, h3: int, d: int)
    requires 0 <= l2 < p && 0 <= l3 < p && 0 <= w3 < q && 0 <= w2 - d < q
    requires l3 + Mul(p, w3 + Mul(q, h3)) == l2 + Mul(p, w2 + Mul(q, h2)) - Mul(p, d)
    ensures l3 == l2 && w3 == w2 - d && h3 == h2
  {
    hide Mul;
    MulSub(w2 + Mul(q, h2), d, p);
    MulComm(p, w2 + Mul(q, h2) - d);
    MulComm(p, w3 + Mul(q, h3));
    DivModUnique(p, w2 + Mul(q, h2) - d, l2, w3 + Mul(q, h3), l3);
    MulComm(q, h2);
    MulComm(q, h3);
    DivModUnique(q, h2, w2 - d, h3, w3);
  }

  /** One more quotient digit `q` in place, and the remainder below it less than the divisor. */
  lemma DigitDone(r0: Cells, rt0: nat, r: Cells, rt: nat, e: nat, ys: nat, j: nat, y: int, dividend: int, q: int)
    requires Dividing(r0, rt0, e, ys, j + 1, y, dividend)
    requires IsDigits(r, 0, e) && j + ys <= rt <= e && forall k :: rt <= k < e ==> r[k] == 0
    requires Val(r, 0, j) == Val(r0, 0, j) && r[j + ys] == q
    requires Val(r, j, ys) == Val(r0, j, ys + 1) - Mul(q, y) && Val(r, j, ys) < y
    requires forall k :: j + ys < k < e ==> r[k] == r0[k]
    ensures Dividing(r, rt, e, ys, j, y, dividend)
  {
    hide Val;
    hide B;
    hide Mul;
    var m, w := e - j - ys - 1, Val(r0, j, ys + 1);
    ValFrame(r, r0, j + ys + 1, m);
    var h := Val(r0, j + ys + 1, m);
    ValSplit(r0, 0, j, ys + 1);
    ValSplit(r, 0, j, ys);
    ValLow(r, j + ys, m);
    BStep(j);
    DoneAlgebra(B(j), y, q, h, w);
    ValBound(r, 0, j);
    MulLe(Val(r, j, ys), y - 1, B(j));
    MulSub(y, 1, B(j));
    MulUnit(B(j));
    MulComm(B(j), y);
  }

  lemma DoneAlgebra(b: int, y: int, q: int, h: int, w: int)
    ensures Mul(b, w) + Mul(Mul(y, DV * b), h) == Mul(b, w - Mul(q, y)) + Mul(Mul(y, b), q + DV * h)
  {
    hide Mul;
    MulSub(w, Mul(q, y), b);
    MulAdd(q, DV * h, Mul(y, b));
    MulConst(DV, y, b);
    MulConst(DV, Mul(y, b), h);
    MulComm(Mul(y, b), q);
    MulAssoc(q, y, b);
    MulComm(Mul(q, y), b);
  }

  /** The quotient rounded towards zero, and the remainder, which has the sign of `x`. */
  ghost function TruncDiv(x: int, m: int): int
    requires m != 0
  {
    var a := Div(if x < 0 then -x else x, if m < 0 then -m else m);
    if (x < 0) == (m < 0) then a else -a
  }

  ghost function TruncRem(x: int, m: int): int
    requires m != 0
  {
    var a := Mod(if x < 0 then -x else x, if m < 0 then -m else m);
    if x < 0 then -a else a
  }

  lemma SignsOut(x: int, m: int, q: int)
    ensures var b, q2 := if m < 0 then -m else m, if (x < 0) == (m < 0) then q else -q;
      Mul(q2, b) == if x < 0 then -(q * m) else q * m
  {}

  lemma FloorSpec(a: int, b: int, q: int, r: int)
    requires b > 0
    ensures q == Div(a, b) && r == Mod(a, b) <==> a == Mul(q, b) + r && 0 <= r < b
  {
    DivMod(a, b);
    hide *;
    if a == Mul(q, b) + r && 0 <= r < b {
      FloorDiv(a, b, q, r);
    }
  }

  lemma TruncIs(x: int, m: int, q: int, r: int)
    requires m != 0
    ensures var a, b := if x < 0 then -x else x, if m < 0 then -m else m;
      && (q == TruncDiv(x, m) <==> (if (x < 0) == (m < 0) then q else -q) == Div(a, b))
      && (r == TruncRem(x, m) <==> (if x < 0 then -r else r) == Mod(a, b))
  {
    hide Div;
    hide Mod;
  }

  lemma SignsIn(x: int, m: int, p: int, r: int)
    requires m != 0 && (x == 0 ==> r == 0)
    ensures var a, b, r2 := if x < 0 then -x else x, if m < 0 then -m else m, if x < 0 then -r else r;
      (a == (if x < 0 then -p else p) + r2 && 0 <= r2 < b) <==>
      (x == p + r && (-m < r < m || m < r < -m) && (x >= 0 ==> r >= 0) && (x <= 0 ==> r <= 0))
  {}

  lemma NoRest(b: int)
    requires b > 0
    ensures Mod(0, b) == 0
  {}

  /** What division promises, and that only one pair of numbers meets it. */
  lemma TruncSpec(x: int, m: int, q: int, r: int)
    requires m != 0
    ensures q == TruncDiv(x, m) && r == TruncRem(x, m)
       <==> x == q * m + r && (-m < r < m || m < r < -m) && (x >= 0 ==> r >= 0) && (x <= 0 ==> r <= 0)
  {
    hide *;
    var a, b := if x < 0 then -x else x, if m < 0 then -m else m;
    TruncIs(x, m, q, r);
    SignsOut(x, m, q);
    FloorSpec(a, b, if (x < 0) == (m < 0) then q else -q, if x < 0 then -r else r);
    NoRest(b);
    if x != 0 || r == 0 {
      SignsIn(x, m, q * m, r);
    }
  }

  ghost function DigitCount(v: nat): nat
    decreases v
  {
    if v == 0 then 0 else 1 + DigitCount(v / DV)
  }

  lemma {:induction false} DigitCountOf(v: nat, n: nat)
    requires v < B(n) && (n > 0 ==> B(n - 1) <= v)
    ensures DigitCount(v) == n
  {
    if n == 1 {
      assert B(1) == DV && v / DV == 0;
    } else if n > 1 {
      BStep(n - 1);
      BStep(n - 2);
      assert v / DV < B(n - 1) && B(n - 2) <= v / DV;
      DigitCountOf(v / DV, n - 1);
    }
  }

  /** The step before the loop: the only quotient digit that can stand above the others is 1.  When
      `r` is a zero whose digits the normalising shift has clamped away, `divRemTo` still stores a 1. */
  method FirstDigit(y: BigInteger, r: BigInteger, t: BigInteger, i: nat, j: int, ghost ys: nat, ghost yv: int)
    returns (ghost e: nat)
    requires y != r && r != t && y != t && ys > 0 && i == r.t == j + ys && r.Valid() && r.s == 0
    requires y.Normal() && y.s == 0 && y.t == ys && Val(y.arr, 0, ys) == yv && 2 * yv >= B(ys)
    requires j < 0 ==> i == 0 && forall k :: 0 <= k < ys ==> k in r.arr && r.arr[k] == 0
    modifies r, t
    ensures r.Valid() && r.s == 0 && (old(r.Normal()) ==> r.Normal())
    ensures j >= 0 ==> Dividing(r.arr, r.t, e, ys, j, yv, old(Val(r.arr, 0, i)))
    ensures j < 0 ==> IsDigits(r.arr, 0, ys) && r.arr[0] == 1 && forall k :: 0 < k < ys ==> r.arr[k] == 0
  {
    hide Val;
    hide B;
    hide Mul;
    hide ValueOf;
    e := i;
    ghost var r0 := r.arr;
    y.DLShiftTo(j, t);
    var c := r.CompareTo(t);
    if j >= 0 {
      Unsigned(y.arr, ys);
      Unsigned(t.arr, i);
      Compare.DigitsOrder(r.arr, t.arr, i);
    }
    if c >= 0 {
      r.arr := r.arr[r.t := 1];
      r.t := r.t + 1;
      ghost var r1 := r.arr;
      r.SubTo(t, r);
      if j >= 0 {
        e := i + 1;
        FirstSubtracted(r0, r1, r.arr, r.t, r.s, i, j, ys, yv);
      } else {
        FirstOfZero(r0, r1, t.arr, r.arr, r.t, r.s);
      }
    } else {
      FirstNothing(r0, i, j, ys, yv);
    }
  }

  lemma FirstNothing(r: Cells, i: nat, j: nat, ys: nat, y: int)
    requires i == j + ys && IsDigits(r, 0, i) && Val(r, 0, i) < Mul(y, B(j))
    ensures Dividing(r, i, i, ys, j, y, Val(r, 0, i))
  {
    hide Mul;
    NoDigit(r, i);
    MulUnit(Mul(y, B(j)));
  }

  lemma FirstSubtracted(r0: Cells, r1: Cells, r: Cells, rt: nat, s: int, i: nat, j: nat, ys: nat, y: int)
    requires ys > 0 && i == j + ys && IsDigits(r0, 0, i) && r1 == r0[i := 1]
    requires 2 * y >= B(ys) && Mul(y, B(j)) <= Val(r0, 0, i)
    requires Compare.Clamped(r, rt, s) && ValueOf(r, rt, s) == ValueOf(r1, i + 1, 0) - Mul(y, B(j)) && rt <= i + 1
    ensures s == 0 && rt == i + 1 && Dividing(r, rt, i + 1, ys, j, y, Val(r0, 0, i))
  {
    hide Val;
    hide B;
    hide Mul;
    hide ValueOf;
    var z := Mul(y, B(j));
    Unsigned(r1, i + 1);
    ProductTop(r0, r1, i, 1);
    MulUnit(B(i));
    ValBound(r0, 0, i);
    BAdd(j, ys);
    MulComm(y, B(j));
    MulLe(B(ys), 2 * y, B(j));
    MulConst(2, B(j), y);
    MulConst(2, y, B(j));
    MulLe(0, y, B(j));
    MulUnit(B(j));
    BMonotonic(0, i);
    Compare.Bounds(r, rt, s);
    if rt < i + 1 {
      BMonotonic(rt, i);
    }
    Unsigned(r, rt);
    ValStep(r, 0, i);
    ValBound(r, 0, i);
    DivModUnique(B(i), 1, Val(r0, 0, i) - z, r[i], Val(r, 0, i));
    OneDigit(r, i);
    MulUnit(z);
  }

  lemma FirstOfZero(r0: Cells, r1: Cells, t: Cells, r: Cells, rt: nat, s: int)
    requires r1 == r0[0 := 1]
    requires Compare.Clamped(r, rt, s) && ValueOf(r, rt, s) == ValueOf(r1, 1, 0) - ValueOf(t, 0, 0)
    requires SameOutside(r1, r, 0, 1)
    ensures s == 0 && rt == 1 && r[0] == 1
    ensures forall k :: k > 0 && k in r0 ==> k in r && r[k] == r0[k]
  {
    SingleDigit(r1);
    hide ValueOf;
    hide SameOutside;
    var one: Cells := map[0 := 1];
    SingleDigit(one);
    assert ValueOf(t, 0, 0) == 0 by { NoDigit(t, 0); Unsigned(t, 0); }
    Compare.NormalUnique(one, 1, 0, r, rt, s);
    OthersKept(r0, r1, r);
  }

  lemma SingleDigit(a: Cells)
    ensures ValueOf(a, 1, 0) == Digit(a, 0)
  {
    OneDigit(a, 0);
    Unsigned(a, 1);
  }

  lemma OthersKept(r0: Cells, r1: Cells, r: Cells)
    requires r1 == r0[0 := 1] && SameOutside(r1, r, 0, 1)
    ensures forall k :: k > 0 && k in r0 ==> k in r && r[k] == r0[k]
  {
    forall k | k > 0 && k in r0
      ensures k in r && r[k] == r0[k]
    {
      assert Digit(r, k) == Digit(r1, k);
    }
  }

  /** The two most significant digits of a normalised divisor give its leading 52 bits. */
  lemma LeadingDigits(y: Cells, ys: nat)
    requires ys > 0 && IsDigits(y, 0, ys) && y[ys - 1] >= 0x800_0000
    ensures Leading(y[ys - 1], y[ys - 1] * F1 + (if ys > 1 then Sar(y[ys - 2], F2) else 0), Val(y, 0, ys), B(ys - 1))
    ensures 0 < Val(y, 0, ys) < B(ys) && 2 * Val(y, 0, ys) >= B(ys)
  {
    hide Val;
    hide B;
    hide Mul;
    var y0, u, v := y[ys - 1], B(ys - 1), Val(y, 0, ys);
    ValStep(y, 0, ys - 1);
    ValBound(y, 0, ys - 1);
    ValBound(y, 0, ys);
    BStep(ys - 1);
    MulAdd(y0, 1, u);
    MulUnit(u);
    MulLe(0x800_0000, y0, u);
    MulConst(0x800_0000, 1, u);
    MulConst(F1, y0, u);
    if ys > 1 {
      var b, y1 := B(ys - 2), y[ys - 2];
      var z := Sar(y1, F2);
      ValStep(y, 0, ys - 2);
      ValBound(y, 0, ys - 2);
      BStep(ys - 2);
      MulAdd(y0 * F1, z, u);
      MulAdd(y0 * F1, z + 1, u);
      MulLe(F2 * z, y1, b);
      MulLe(y1 + 1, F2 * (z + 1), b);
      MulAdd(y1, 1, b);
      MulUnit(b);
      MulConst(F2, z, b);
      MulConst(F2, z + 1, b);
      MulConst(DV, z, b);
      MulConst(DV, z + 1, b);
      assert u == DV * b;
    } else {
      NoDigit(y, 0);
      MulAdd(y0 * F1, 1, u);
      assert v == Mul(y0, u) + Val(y, 0, 0);
    }
  }

  /** Replace the divisor by its complement, on the same number of digits. */
  method Complement(y: BigInteger, t: BigInteger)
    requires y != t && y.Normal() && y.s == 0 && y.t > 0
    modifies y, t
    ensures y.Valid() && y.s == 0 && y.t == old(y.t) && Val(y.arr, 0, y.t) == B(y.t) - old(Val(y.arr, 0, y.t))
  {
    hide Val;
    hide B;
    hide Mul;
    hide ValueOf;
    ghost var y0 := y.arr;
    var ys := y.t;
    Unsigned(y.arr, ys);
    var one := new BigInteger();
    one.FromInt(1);
    one.DLShiftTo(ys, t);
    MulUnit(B(ys));
    ValBound(y.arr, 0, ys);
    t.SubTo(y, y);
    Compare.Bounds(y.arr, y.t, y.s);
    assert Val(y0, 0, ys) > 0 by { PositiveDigits(y0, ys); }
    if y.t > ys {
      BMonotonic(ys, y.t - 1);
    }
    Unsigned(y.arr, y.t);
    while y.t < ys
      modifies y
      invariant y.t <= ys && y.Valid() && y.s == 0
      invariant Val(y.arr, 0, y.t) == B(ys) - Val(y0, 0, ys)
    {
      ghost var before := y.arr;
      y.arr := y.arr[y.t := 0];
      y.t := y.t + 1;
      ProductTop(before, y.arr, y.t - 1, 0);
      MulUnit(B(y.t - 1));
    }
  }

  lemma PositiveDigits(y: Cells, ys: nat)
    requires ys > 0 && IsDigits(y, 0, ys) && y[ys - 1] != 0
    ensures Val(y, 0, ys) >= B(ys - 1)
  {
    hide Val;
    hide B;
    hide Mul;
    ValStep(y, 0, ys - 1);
    ValBound(y, 0, ys - 1);
    MulLe(1, y[ys - 1], B(ys - 1));
    MulUnit(B(ys - 1));
  }

  /** The loop of `bnpDivRemTo`. */
  method DivideDigits(y: BigInteger, r: BigInteger, t: BigInteger, i0: nat, j0: int, ys: nat, y0: int, yt: int,
                      ghost yv: int, ghost e: nat, ghost dividend: int)
    requires y != r && r != t && y != t && ys > 0 && i0 == j0 + ys
    requires y.Valid() && y.t == ys && y.s == 0 && Val(y.arr, 0, ys) == B(ys) - yv
    requires r.Valid() && r.s == 0
    requires Leading(y0, yt, yv, B(ys - 1)) && 0 < yv < B(ys)
    requires j0 >= 0 ==> Dividing(r.arr, r.t, e, ys, j0, yv, dividend)
    modifies r, t
    ensures r.Valid() && r.s == 0 && (old(r.Normal()) ==> r.Normal())
    ensures j0 >= 0 ==> Dividing(r.arr, r.t, e, ys, 0, yv, dividend)
    ensures j0 < 0 ==> r.arr == old(r.arr) && r.t == old(r.t)
  {
    hide Val;
    hide B;
    hide Mul;
    hide Leading;
    hide Dividing;
    var i, j := i0, j0;
    while j > 0
      modifies r, t
      invariant i == j + ys && (j0 >= 0 ==> j >= 0) && (j0 < 0 ==> r.arr == old(r.arr) && r.t == old(r.t))
      invariant r.Valid() && r.s == 0 && (old(r.Normal()) ==> r.Normal())
      invariant j0 >= 0 ==> Dividing(r.arr, r.t, e, ys, j, yv, dividend)
    {
      i, j := i - 1, j - 1;
      DivideDigit(y, r, t, i, j, ys, y0, yt, yv, e, dividend);
    }
  }

  /** Shift both operands so that the divisor's leading digit has its highest bit set. */
  method Normalise(pm: BigInteger, pt: BigInteger, y: BigInteger, r: BigInteger) returns (nsh: nat)
    requires pm.Normal() && pm.s == 0 && 0 < pm.t <= pt.t && pt.Valid() && pt.s == 0
    requires pt.Normal() || pt.Value() == 0
    requires y != pm && y != pt && y != r
    modifies y, r
    ensures nsh < DB && y.Normal() && y.s == 0 && y.t == old(pm.t) && y.arr[y.t - 1] >= 0x800_0000
    ensures y.Value() == Mul(old(pm.Value()), Pow2(nsh))
    ensures r.Valid() && r.s == 0 && (old(pt.Normal()) ==> r.Normal())
    ensures r.Value() == Mul(old(pt.Value()), Pow2(nsh))
    ensures r.t >= y.t || (nsh > 0 && old(pt.Value()) == 0 && r.t == 0 && forall k :: 0 <= k < y.t ==> k in r.arr && r.arr[k] == 0)
  {
    hide Val;
    hide B;
    hide Mul;
    hide ValueOf;
    hide Pow2;
    ghost var m, mt, v, vt := pm.Value(), pm.t, pt.Value(), pt.t;
    var nb := NBits(pm.arr[pm.t - 1]);
    NormalShift(pm.arr, pm.t, nb);
    nsh := DB - nb;
    Compare.Bounds(pm.arr, pm.t, 0);
    assert v >= 0 && (v != 0 ==> B(vt - 1) <= v) by {
      if pt.Normal() { Compare.Bounds(pt.arr, pt.t, 0); }
    }
    if nsh > 0 {
      LShiftTo(pm, nsh, y);
      LShiftTo(pt, nsh, r);
      ShiftedLength(v, vt, nsh, r.arr, r.t, r.s);
    } else {
      pm.CopyTo(y);
      pt.CopyTo(r);
      Unshifted(m, v);
    }
    NormalisedTop(m, mt, nb, y.arr, y.t, y.s);
  }

  lemma NormalShift(a: Cells, t: nat, nb: nat)
    requires t > 0 && IsDigits(a, 0, t) && 1 <= nb && Pow2(nb - 1) <= a[t - 1] < Pow2(nb)
    ensures nb <= DB
    ensures Mul(Pow2(nb - 1), B(t - 1)) <= ValueOf(a, t, 0) < Mul(Pow2(nb), B(t - 1))
  {
    Powers();
    hide Val;
    hide B;
    hide Mul;
    hide Pow2;
    if nb > DB {
      Pow2Monotonic(DB, nb - 1);
    }
    Unsigned(a, t);
    ValStep(a, 0, t - 1);
    ValBound(a, 0, t - 1);
    MulLe(Pow2(nb - 1), a[t - 1], B(t - 1));
    MulLe(a[t - 1] + 1, Pow2(nb), B(t - 1));
    MulAdd(a[t - 1], 1, B(t - 1));
    MulUnit(B(t - 1));
  }

  lemma Unshifted(m: int, v: int)
    ensures Mul(m, Pow2(0)) == m && Mul(v, Pow2(0)) == v
  {}

  lemma NormalisedTop(m: int, mt: nat, nb: nat, y: Cells, yt: nat, s: int)
    requires 1 <= nb <= DB && mt > 0 && Mul(Pow2(nb - 1), B(mt - 1)) <= m < Mul(Pow2(nb), B(mt - 1))
    requires Compare.Clamped(y, yt, s) && ValueOf(y, yt, s) == Mul(m, Pow2(DB - nb))
    ensures s == 0 && yt == mt && y[yt - 1] >= 0x800_0000
  {
    Powers();
    Pow2Add(nb - 1, DB - nb);
    Pow2Add(nb, DB - nb);
    hide Val;
    hide B;
    hide Mul;
    hide Pow2;
    hide ValueOf;
    var b, p, v := B(mt - 1), Pow2(DB - nb), ValueOf(y, yt, s);
    TopFactor(Pow2(nb - 1), b, p, 0x800_0000);
    TopFactor(Pow2(nb), b, p, DV);
    MulLe(Mul(Pow2(nb - 1), b), m, p);
    MulLess(m, Mul(Pow2(nb), b), p);
    BStep(mt - 1);
    Compare.Bounds(y, yt, s);
    if yt < mt {
      BMonotonic(yt, mt - 1);
    } else if yt > mt {
      BMonotonic(mt, yt - 1);
    } else {
      Unsigned(y, yt);
      ValStep(y, 0, yt - 1);
      ValBound(y, 0, yt - 1);
      MulAdd(y[yt - 1], 1, b);
      MulUnit(b);
      if y[yt - 1] < 0x800_0000 {
        MulLe(y[yt - 1] + 1, 0x800_0000, b);
        MulConst(0x800_0000, 1, b);
      }
    }
  }

  lemma TopFactor(x: int, b: int, p: int, n: int)
    requires x * p == n
    ensures Mul(Mul(x, b), p) == n * b
  {
    assert (x * b) * p == (x * p) * b;
  }

  lemma ShiftedLength(v: int, vt: nat, nsh: nat, r: Cells, rt: nat, s: int)
    requires v >= 0 && vt > 0 && (v != 0 ==> B(vt - 1) <= v)
    requires Compare.Clamped(r, rt, s) && ValueOf(r, rt, s) == Mul(v, Pow2(nsh))
    ensures s == 0 && (if v == 0 then rt == 0 else rt >= vt)
  {
    hide Val;
    hide B;
    hide Mul;
    hide Pow2;
    hide ValueOf;
    Compare.Bounds(r, rt, s);
    MulLe(1, Pow2(nsh), v);
    MulUnit(v);
    MulUnit(Pow2(nsh));
    if v != 0 && rt < vt {
      BMonotonic(rt, vt - 1);
    }
  }

  /** The division proper: `r` is left with the remainder in its lowest digits and the quotient
      above it. */
  method DivideNormalised(y: BigInteger, r: BigInteger, t: BigInteger)
    requires y != r && r != t && y != t && r.Valid() && r.s == 0
    requires y.Normal() && y.s == 0 && y.t > 0 && y.arr[y.t - 1] >= 0x800_0000 && y.Value() > 0
    requires r.t >= y.t || (r.t == 0 && forall k :: 0 <= k < y.t ==> k in r.arr && r.arr[k] == 0)
    modifies y, r, t
    ensures r.Valid() && r.s == 0 && (old(r.Normal()) ==> r.Normal()) && IsDigits(r.arr, 0, old(y.t))
    ensures old(r.t >= y.t) ==> && Val(r.arr, 0, old(y.t)) == Mod(old(r.Value()), old(y.Value()))
                                && Div(r.Value(), B(old(y.t))) == Div(old(r.Value()), old(y.Value()))
    ensures old(r.t < y.t) ==> Val(r.arr, 0, old(y.t)) == 1
  {
    hide Val;
    hide B;
    hide Mul;
    hide ValueOf;
    hide Div;
    hide Mod;
    hide Leading;
    hide Dividing;
    var ys := y.t;
    ghost var yv, dividend := y.Value(), r.Value();
    Unsigned(y.arr, ys);
    Unsigned(r.arr, r.t);
    LeadingDigits(y.arr, ys);
    var y0 := y.arr[ys - 1];
    assert y0 != 0;  // where `divRemTo` gives up if it is
    var yt := y0 * F1 + (if ys > 1 then Sar(y.arr[ys - 2], F2) else 0);
    var i, j := r.t, r.t - ys;
    ghost var e := FirstDigit(y, r, t, i, j, ys, yv);
    Complement(y, t);
    DivideDigits(y, r, t, i, j, ys, y0, yt, yv, e, dividend);
    if j >= 0 {
      QuotientAndRemainder(r.arr, r.t, e, ys, yv, dividend);
    } else {
      LeftoverOne(r.arr, ys);
    }
  }

  /** `bnpDivRemTo` on absolute values, the dividend being at least as long as the divisor. */
  method DivRemAbs(pm: BigInteger, pt: BigInteger, q: BigInteger?, r: BigInteger, ts: int, ms: int)
    requires pm.Normal() && pm.s == 0 && 0 < pm.t <= pt.t && pt.Valid() && pt.s == 0
    requires pt.Normal() || (pt.Value() == 0 && q == null)
    requires q != r && pm.Value() > 0 && pt.Value() >= 0
    modifies q, r
    ensures r.Normal()
    ensures var a := Mod(old(pt.Value()), old(pm.Value()));
            r.Value() == if ts < 0 then -a else a
    ensures q != null ==>
              && q.Normal()
              && var a := Div(old(pt.Value()), old(pm.Value()));
                 q.Value() == if ts != ms then -a else a
  {
    hide Val;
    hide B;
    hide Mul;
    hide ValueOf;
    hide Div;
    hide Mod;
    hide Pow2;
    ghost var v, mv, longer := pt.Value(), pm.Value(), false;
    assert q != null ==> v != 0 by { if q != null { Compare.Bounds(pt.arr, pt.t, 0); } }
    var y := new BigInteger();
    var nsh := Normalise(pm, pt, y, r);
    var ys := y.t;
    longer := r.t >= ys;
    Scaled(v, mv, Pow2(nsh));
    assert q != null ==> longer;
    if !longer { OneShiftedOut(mv, nsh); }
    var t := new BigInteger();
    if q != null { t := q; }
    DivideNormalised(y, r, t);
    if q != null {
      r.DRShiftTo(ys, q);
      if ts != ms { NegateInPlace(q); }
    }
    FinishRemainder(r, ys, nsh, ts);
  }

  /** The remainder is the lowest `ys` digits, shifted back. */
  method FinishRemainder(r: BigInteger, ys: nat, nsh: nat, ts: int)
    requires r.s == 0 && IsDigits(r.arr, 0, ys)
    modifies r
    ensures r.Normal()
    ensures var a := Div(old(Val(r.arr, 0, ys)), Pow2(nsh));
            r.Value() == if ts < 0 then -a else a
  {
    hide Val;
    hide B;
    hide Mul;
    hide ValueOf;
    hide Div;
    hide Pow2;
    r.t := ys;
    Unsigned(r.arr, ys);
    r.Clamp();
    if nsh > 0 {
      RShiftTo(r, nsh, r);
    } else {
      UnshiftedBack(r.Value());
    }
    if ts < 0 { NegateInPlace(r); }
  }

  lemma UnshiftedBack(v: int)
    ensures Div(v, Pow2(0)) == v
  {}

  /** `BigInteger.ZERO.subTo(r, r)` */
  method NegateInPlace(r: BigInteger)
    requires r.Valid()
    modifies r
    ensures r.Normal() && r.Value() == -old(r.Value())
  {
    var zero := new BigInteger();
    zero.SubTo(r, r);
  }

  /** When no digit is left to find, the digits above the remainder are the quotient. */
  lemma QuotientAndRemainder(r: Cells, rt: nat, e: nat, ys: nat, y: int, dividend: int)
    requires y > 0 && Dividing(r, rt, e, ys, 0, y, dividend)
    ensures ys <= rt && IsDigits(r, 0, ys) && Val(r, 0, ys) == Mod(dividend, y)
    ensures Div(ValueOf(r, rt, 0), B(ys)) == Div(dividend, y)
  {
    NoDigit(r, 0);
    hide Val;
    hide B;
    hide Mul;
    hide ValueOf;
    hide Div;
    hide Mod;
    var q := Val(r, ys, e - ys);
    MulUnit(y);
    ValBound(r, 0, ys);
    MulComm(y, q);
    FloorDiv(dividend, y, q, Val(r, 0, ys));
    Unsigned(r, rt);
    ValPad(r, rt, e);
    ValSplit(r, 0, ys, e - ys);
    MulComm(B(ys), q);
    FloorDiv(ValueOf(r, rt, 0), B(ys), q, Val(r, 0, ys));
  }

  /** Scaling both operands leaves the quotient and scales the remainder. */
  lemma Scaled(v: int, m: int, p: int)
    requires m > 0 && p > 0
    ensures Mul(m, p) > 0
    ensures Div(Mul(v, p), Mul(m, p)) == Div(v, m)
    ensures Div(Mod(Mul(v, p), Mul(m, p)), p) == Mod(v, m)
  {
    DivMod(v, m);
    hide Mul;
    hide Div;
    hide Mod;
    var q, r := Div(v, m), Mod(v, m);
    MulLess(0, m, p);
    MulUnit(p);
    MulAdd(Mul(q, m), r, p);
    MulAssoc(q, m, p);
    MulLe(0, r, p);
    MulLess(r, m, p);
    FloorDiv(Mul(v, p), Mul(m, p), q, Mul(r, p));
    FloorDiv(Mul(r, p), p, r, 0);
  }

  lemma LeftoverOne(r: Cells, ys: nat)
    requires ys > 0 && IsDigits(r, 0, ys) && r[0] == 1 && forall k :: 0 < k < ys ==> r[k] == 0
    ensures Val(r, 0, ys) == 1
  {
    OneDigit(r, 0);
    ValPad(r, 1, ys);
  }

  lemma OneShiftedOut(m: int, nsh: nat)
    requires m > 0 && nsh > 0
    ensures Div(1, Pow2(nsh)) == 0 == Mod(0, m)
  {
    Pow2Monotonic(1, nsh);
    hide Pow2;
    FloorDiv(1, Pow2(nsh), 0, 1);
    FloorDiv(0, m, 0, 0);
  }

  /** |x| has fewer digits than |m|. */
  ghost predicate Shorter(x: int, m: int) {
    DigitCount(if x < 0 then -x else x) < DigitCount(if m < 0 then -m else m)
  }

  lemma LengthIsCount(a: Cells, t: nat)
    requires Compare.Clamped(a, t, 0)
    ensures ValueOf(a, t, 0) >= 0 && DigitCount(ValueOf(a, t, 0)) == t
  {
    Compare.Bounds(a, t, 0);
    DigitCountOf(ValueOf(a, t, 0), t);
  }

  lemma ShorterIsSmaller(x: int, m: int, a: Cells, at: nat, b: Cells, bt: nat)
    requires m != 0 && Compare.Clamped(a, at, 0) && Compare.Clamped(b, bt, 0)
    requires ValueOf(a, at, 0) == (if x < 0 then -x else x) && ValueOf(b, bt, 0) == (if m < 0 then -m else m)
    ensures Shorter(x, m) <==> at < bt
    ensures at < bt ==> TruncDiv(x, m) == 0 && TruncRem(x, m) == x
  {
    LengthIsCount(a, at);
    LengthIsCount(b, bt);
    if at < bt {
      Compare.Bounds(a, at, 0);
      Compare.Bounds(b, bt, 0);
      BMonotonic(at, bt - 1);
      MulUnit(if m < 0 then -m else m);
      FloorDiv(if x < 0 then -x else x, if m < 0 then -m else m, 0, if x < 0 then -x else x);
    }
  }

  /** The divisor is longer: the quotient is 0 and the remainder is this, unless `q` is this. */
  method ShortDividend(x: BigInteger, q: BigInteger?, r: BigInteger?)
    requires x.Normal() && (q != null ==> q != r)
    modifies q, r
    ensures q != null ==> q.Normal() && q.Value() == 0
    ensures r != null ==> r.Normal() && r.Value() == if q == x then 0 else old(x.Value())
  {
    if q != null { q.FromInt(0); }
    if r != null { x.CopyTo(r); }
  }

  lemma TruncOfAbs(x: int, m: int)
    requires m != 0
    ensures var a, b := if x < 0 then -x else x, if m < 0 then -m else m;
            && b > 0
            && TruncDiv(x, m) == (if (x < 0) != (m < 0) then -Div(a, b) else Div(a, b))
            && TruncRem(x, m) == (if x < 0 then -Mod(a, b) else Mod(a, b))
  {}

  /** crypto.js `bnpDivRemTo`: this = q * m + r, with |r| < |m| and the sign of this.  `q` and `r` may be
      absent, and either may be an operand; but when `q` is this and the divisor is longer, `divRemTo`
      clears this before it copies it, and the remainder comes out 0.  `x` may be a zero with digits,
      as a digit shift leaves it. */
  method DivRemTo(x: BigInteger, m: BigInteger, q0: BigInteger?, r0: BigInteger?)
    requires x.Valid() && m.Normal() && (q0 != null ==> q0 != r0)
    requires x.Normal() || (x.s == 0 && x.Value() == 0 && m.s == 0 && x.t >= m.t && q0 == null)
    modifies q0, r0
    ensures old(m.Value()) == 0 ==> (q0 != null ==> unchanged(q0)) && (r0 != null ==> unchanged(r0))
    ensures old(m.Value()) != 0 && q0 != null ==>
              q0.Normal() && q0.Value() == TruncDiv(old(x.Value()), old(m.Value()))
    ensures old(m.Value()) != 0 && r0 != null ==>
              r0.Normal() && r0.Value() == if q0 == x && Shorter(old(x.Value()), old(m.Value())) then 0
                                           else TruncRem(old(x.Value()), old(m.Value()))
  {
    hide Val;
    hide B;
    hide Mul;
    hide ValueOf;
    hide Div;
    hide Mod;
    hide Shorter;
    hide TruncDiv;
    hide TruncRem;
    ghost var v, mv := x.Value(), m.Value();
    assert (mv < 0 <==> m.s < 0) && (mv == 0 <==> m.s == 0 && m.t == 0) by { Compare.Bounds(m.arr, m.t, m.s); }
    assert v < 0 <==> x.s < 0 by { if x.Normal() { Compare.Bounds(x.arr, x.t, x.s); } }
    if mv != 0 { TruncOfAbs(v, mv); }
    var pm := Abs(m);
    Compare.Bounds(pm.arr, pm.t, 0);
    if pm.t <= 0 { return; }
    var pt := Abs(x);
    if pt.Normal() { ShorterIsSmaller(v, mv, pt.arr, pt.t, pm.arr, pm.t); }
    assert pt.Normal() || q0 == null;
    if pt.t < pm.t {
      ShortDividend(x, q0, r0);
      return;
    }
    var r := new BigInteger();
    if r0 != null { r := r0; }
    DivRemAbs(pm, pt, q0, r, x.s, m.s);
  }

  /** A number of two digits: the base. */
  method TheBase() returns (m: BigInteger)
    ensures fresh(m) && m.Normal() && m.Value() == DV
  {
    var one := new BigInteger();
    one.FromInt(1);
    Compare.Bounds(one.arr, one.t, one.s);
    MulUnit(B(1));
    BStep(0);
    hide Val;
    hide B;
    hide ValueOf;
    hide Mul;
    m := new BigInteger();
    one.DLShiftTo(1, m);
  }

  /** 1 divided by 2^28 into itself: the quotient overwrites the number before it is copied, and the remainder comes
      out 0, not 1. */
  method OneIntoItself() returns (x: BigInteger, r: BigInteger)
    ensures x.Normal() && x.Value() == 0 == TruncDiv(1, DV)
    ensures r.Normal() && r.Value() == 0 != TruncRem(1, DV)
  {
    OneByDV();
    hide *;
    x := new BigInteger();
    r := new BigInteger();
    BaseIs();
    x.FromInt(1);
    var m := TheBase();
    NormalIsValid(x);
    DivRemTo(x, m, x, r);
  }

  lemma OneByDV()
    ensures Shorter(1, DV) && TruncDiv(1, DV) == 0 && TruncRem(1, DV) == 1
  {
    DigitCountOf(1, 1);
    DigitCountOf(DV, 2);
  }
}
