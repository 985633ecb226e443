/** The bits of an exponent as the sliding window reads them: from the top, a window at a time,
    across digit boundaries and past the last bit. */
module Windows {
  import opened JsNumber
  import opened Digits
  import opened BigIntegers
  import opened Shifts

  /** The exponent's bits from place `i` up. */
  ghost function Top(e: nat, i: nat): (r: nat) {
    DivNonNegative(e, Pow2(i));
    Div(e, Pow2(i))
  }

  lemma TopStep(e: nat, i: nat)
    ensures Top(e, i) == 2 * Top(e, i + 1) + Top(e, i) % 2
  {
    var p := Pow2(i);
    DivMod(e, 2 * p);
    DivMod(e, p);
    hide Pow2;
    hide Mul;
    var q, r := Div(e, 2 * p), Mod(e, 2 * p);
    MulConst(2, q, p);
    MulConst(2, p, q);
    if r < p {
      FloorDiv(e, p, 2 * q, r);
    } else {
      MulAdd(2 * q, 1, p);
      MulUnit(p);
      FloorDiv(e, p, 2 * q + 1, r - p);
    }
    assert Pow2(i + 1) == 2 * p by { Pow2Twice(i); }
  }

  lemma Pow2Twice(i: nat)
    ensures Pow2(i + 1) == 2 * Pow2(i)
  {}

  lemma TopBit(e: int, i: nat)
    requires e > 0 && Pow2(i) <= e < Pow2(i + 1)
    ensures Top(e, i) == 1
  {
    MulUnit(Pow2(i));
    FloorDiv(e, Pow2(i), 1, e - Pow2(i));
  }

  lemma TopAll(e: nat)
    ensures Top(e, 0) == e
  {}

  /** Below place 0 the exponent is read as if zero bits followed. */
  ghost function TopPast(e: nat, q: int): (r: nat) {
    if q >= 0 then Top(e, q) else e * Pow2(-q)
  }

  lemma TopPastStep(e: nat, q: int)
    ensures TopPast(e, q) == 2 * TopPast(e, q + 1) + TopPast(e, q) % 2
    ensures q < 0 ==> TopPast(e, q) % 2 == 0
  {
    if q >= 0 {
      TopStep(e, q);
    } else {
      var p := Pow2(-q - 1);
      assert Pow2(-q) == 2 * p;
      assert e * (2 * p) == 2 * (e * p);
      if q == -1 {
        TopAll(e);
        assert p == 1;
      }
    }
  }

  /** The `n` bits below place `p`. */
  ghost function Window(e: nat, p: int, n: nat): (r: nat) {
    Mod(TopPast(e, p - n), Pow2(n))
  }

  /** Dropping a window's last bit leaves the window that is one bit shorter. */
  lemma WindowStrip(e: nat, p: int, n: nat)
    requires n > 0
    ensures Window(e, p, n) % 2 == TopPast(e, p - n) % 2
    ensures Window(e, p, n - 1) == Window(e, p, n) / 2
    ensures Window(e, p, n) % 2 == 1 ==> p >= n
  {
    hide *;
    var q := p - n;
    TopPastStep(e, q);
    Pow2Twice(n - 1);
    WindowIs(e, p, n);
    WindowIs(e, p, n - 1);
    assert p - (n - 1) == q + 1;
    StripBit(TopPast(e, q), TopPast(e, q + 1), Pow2(n - 1));
  }

  lemma WindowIs(e: nat, p: int, n: nat)
    ensures Window(e, p, n) == Mod(TopPast(e, p - n), Pow2(n))
  {}

  lemma StripBit(x: nat, y: nat, h: nat)
    requires h > 0 && x == 2 * y + x % 2
    ensures Mod(x, 2 * h) % 2 == x % 2 && Mod(y, h) == Mod(x, 2 * h) / 2
  {
    hide *;
    DivMod(y, h);
    var q, r := Div(y, h), Mod(y, h);
    MulConst(2, q, h);
    FloorDiv(x, 2 * h, q, 2 * r + x % 2);
  }

  lemma WindowOne(e: nat, p: int)
    ensures Window(e, p, 1) == TopPast(e, p - 1) % 2
  {
    assert Pow2(1) == 2;
  }

  lemma NestedDiv(e: nat, a: nat, b: nat)
    requires a > 0 && b > 0
    ensures a * b > 0 && Div(Div(e, a), b) == Div(e, a * b)
  {
    MulLess(0, a, b);
    DivMod(e, a);
    var q := Div(e, a);
    DivMod(q, b);
    var q2, r1, r2 := Div(q, b), Mod(e, a), Mod(q, b);
    assert e == (q2 * b + r2) * a + r1 == q2 * (a * b) + (r2 * a + r1);
    assert r2 * a + r1 < a * b by {
      MulLe(r2, b - 1, a);
    }
    assert 0 <= r2 * a + r1 by {
      MulLe(0, r2, a);
    }
    FloorDiv(e, a * b, q2, r2 * a + r1);
  }

  lemma TopTop(e: nat, i: nat, n: nat)
    ensures Div(Top(e, i), Pow2(n)) == Top(e, i + n)
  {
    NestedDiv(e, Pow2(i), Pow2(n));
    Pow2Add(i, n);
  }

  /** Reading a window on appends its bits. */
  lemma WindowRead(e: nat, p: int, n: nat)
    requires p >= n
    ensures Top(e, p - n) == Mul(Top(e, p), Pow2(n)) + Window(e, p, n)
  {
    TopTop(e, p - n, n);
    DivMod(Top(e, p - n), Pow2(n));
  }

  lemma TopDigits(e: Cells, t: nat, j: nat)
    requires IsDigits(e, 0, t) && j < t
    ensures Val(e, 0, t) >= 0 && Top(Val(e, 0, t), DB * j) == Val(e, j, t - j)
    ensures Val(e, j, t - j) == e[j] + DV * Val(e, j + 1, t - j - 1)
    ensures Val(e, j + 1, t - j - 1) >= 0
  {
    ValBound(e, 0, t);
    ValBound(e, 0, j);
    ValBound(e, j + 1, t - j - 1);
    Pow2Digits(j);
    ValSplit(e, 0, j, t - j);
    ValLow(e, j, t - j - 1);
    hide Val;
    hide B;
    hide Mul;
    hide Pow2;
    MulComm(B(j), Val(e, j, t - j));
    FloorDiv(Val(e, 0, t), B(j), Val(e, j, t - j), Val(e, 0, j));
  }

  lemma DigitParts(d: int, h: int, p: int, q: int)
    requires p > 0 && q * p == DV
    ensures Div(d + DV * h, p) == Div(d, p) + Mul(q, h)
  {
    assert d + DV * h == (d / p + q * h) * p + d % p by {
      assert (q * h) * p == (q * p) * h;
    }
    FloorDiv(d + DV * h, p, d / p + q * h, d % p);
  }

  /** The exponent cut inside digit `j`. */
  lemma TopInDigit(e: Cells, t: nat, j: nat, s: nat)
    requires IsDigits(e, 0, t) && j < t && s <= DB
    ensures Val(e, 0, t) >= 0
    ensures Top(Val(e, 0, t), DB * j + s) == Div(e[j], Pow2(s)) + Mul(Pow2(DB - s), Val(e, j + 1, t - j - 1))
  {
    hide Val;
    hide B;
    hide Pow2;
    hide Div;
    hide Mul;
    hide Top;
    TopDigits(e, t, j);
    TopTop(Val(e, 0, t), DB * j, s);
    SplitBits(s);
    DigitParts(e[j], Val(e, j + 1, t - j - 1), Pow2(s), Pow2(DB - s));
  }

  lemma ModExtra(x: int, k: int, c: int, p: int)
    requires p > 0
    ensures Mod(x + Mul(p * c, k), p) == Mod(x, p)
  {
    assert x + (p * c) * k == (x / p + c * k) * p + x % p by {
      assert (p * c) * k == (c * k) * p;
    }
    FloorDiv(x + (p * c) * k, p, x / p + c * k, x % p);
  }

  /** A window that lies inside digit `j`. */
  lemma WindowInDigit(e: Cells, t: nat, j: nat, s: nat, n: nat)
    requires IsDigits(e, 0, t) && j < t && s + n <= DB
    ensures Val(e, 0, t) >= 0
    ensures Window(Val(e, 0, t), DB * j + s + n, n) == Mod(Div(e[j], Pow2(s)), Pow2(n))
  {
    hide Val;
    hide B;
    hide Pow2;
    hide Div;
    hide Mul;
    hide Mod;
    hide Top;
    TopInDigit(e, t, j, s);
    Pow2Add(n, DB - s - n);
    ModExtra(Div(e[j], Pow2(s)), Val(e, j + 1, t - j - 1), Pow2(DB - s - n), Pow2(n));
    assert DB * j + s + n - n == DB * j + s >= 0;
  }

  lemma JoinParts(low: int, d: int, h: int, p: int, q: int, c: int)
    requires p > 0 && q > 0 && q * c == DV && 0 <= low < p
    ensures p * q > 0 && Mod(low + Mul(p, d + DV * h), p * q) == Mul(p, Mod(d, q)) + low
  {
    MulLess(0, p, q);
    var u := d / q + c * h;
    assert d + DV * h == u * q + d % q by {
      assert (c * h) * q == (q * c) * h;
    }
    assert p * (u * q + d % q) == u * (p * q) + p * (d % q);
    assert 0 <= p * (d % q) + low < p * q by {
      MulLe(d % q, q - 1, p);
      MulLe(0, d % q, p);
    }
    FloorDiv(low + p * (d + DV * h), p * q, u, p * (d % q) + low);
  }

  /** A window that takes `i + 1` bits of digit `j` and goes on for `c` bits below it. */
  lemma WindowAcross(e: Cells, t: nat, j: nat, i: nat, c: nat)
    requires IsDigits(e, 0, t) && j < t && i < DB && 0 < c <= DB
    ensures Val(e, 0, t) >= 0
    ensures Window(Val(e, 0, t), DB * j + i + 1, i + 1 + c)
         == Mul(Pow2(c), Mod(e[j], Pow2(i + 1))) + LowPart(e, j, c)
  {
    hide Val;
    hide B;
    hide Pow2;
    hide Div;
    hide Mul;
    hide Mod;
    hide Top;
    hide LowPart;
    hide TopPast;
    TopPastDigit(e, t, j, c);
    Pow2Add(c, i + 1);
    SplitBits(i + 1);
    TopDigits(e, t, j);
    LowPartFits(e, t, j, c);
    JoinParts(LowPart(e, j, c), e[j], Val(e, j + 1, t - j - 1), Pow2(c), Pow2(i + 1), Pow2(DB - i - 1));
    assert DB * j + i + 1 - (i + 1 + c) == DB * j - c;
    assert i + 1 + c == c + (i + 1);
  }

  /** The top `c` bits of the digit below digit `j`. */
  ghost function LowPart(e: Cells, j: nat, c: nat): int
    requires c <= DB
  {
    if j > 0 then Div(Digit(e, j - 1), Pow2(DB - c)) else 0
  }

  lemma TopPastDigit(e: Cells, t: nat, j: nat, c: nat)
    requires IsDigits(e, 0, t) && j < t && 0 < c <= DB
    ensures Val(e, 0, t) >= 0
    ensures TopPast(Val(e, 0, t), DB * j - c) == LowPart(e, j, c) + Mul(Pow2(c), Val(e, j, t - j))
  {
    hide Val;
    hide B;
    hide Pow2;
    hide Div;
    hide Top;
    TopDigits(e, t, j);
    if j > 0 {
      TopInDigit(e, t, j - 1, DB - c);
    } else {
      MulComm(Val(e, 0, t), Pow2(c));
    }
  }

  lemma LowPartFits(e: Cells, t: nat, j: nat, c: nat)
    requires IsDigits(e, 0, t) && j < t && 0 < c <= DB
    ensures 0 <= LowPart(e, j, c) < Pow2(c)
  {
    hide Pow2;
    if j > 0 {
      SplitBits(c);
      QuotientFits(e[j - 1], Pow2(c), Pow2(DB - c));
    }
  }

  lemma QuotientFits(d: int, p: int, q: int)
    requires 0 <= d < p * q && q > 0
    ensures 0 <= Div(d, q) < p
  {
    DivNonNegative(d, q);
    if Div(d, q) >= p {
      MulLe(p, Div(d, q), q);
    }
  }

  /** The test `(e[j] & (1 << i)) == 0`. */
  lemma DigitBit(e: Cells, t: nat, j: nat, i: nat)
    requires IsDigits(e, 0, t) && j < t && i < DB
    ensures Val(e, 0, t) >= 0
    ensures Top(Val(e, 0, t), DB * j + i) % 2 == Mod(Div(e[j], Pow2(i)), 2)
  {
    hide *;
    WindowInDigit(e, t, j, i, 1);
    BitPlace(Val(e, 0, t), j, i);
  }

  lemma BitPlace(x: nat, j: nat, i: nat)
    ensures Window(x, DB * j + i + 1, 1) == Top(x, DB * j + i) % 2 && Pow2(1) == 2
  {
    WindowOne(x, DB * j + i + 1);
    Pow2Twice(0);
    hide Window;
    hide Top;
  }

  /** Above the leading bit nothing is left. */
  lemma LeadingBit(e: Cells, t: nat, nb: nat)
    requires IsDigits(e, 0, t) && t > 0 && 0 < nb <= DB && Pow2(nb - 1) <= e[t - 1] < Pow2(nb)
    ensures Val(e, 0, t) >= 0
    ensures Top(Val(e, 0, t), DB * (t - 1) + nb) == 0 && Top(Val(e, 0, t), DB * (t - 1) + nb - 1) == 1
  {
    NoDigit(e, t);
    hide Val;
    hide Top;
    hide Div;
    hide Mul;
    hide B;
    TopInDigit(e, t, t - 1, nb);
    TopInDigit(e, t, t - 1, nb - 1);
    MulUnit(Pow2(DB - nb));
    MulUnit(Pow2(DB - nb + 1));
    Pow2Twice(nb - 1);
    hide Pow2;
    LeadingOne(e[t - 1], Pow2(nb - 1));
  }

  lemma LeadingOne(d: int, p: int)
    requires 0 < p <= d < 2 * p
    ensures Div(d, p) == 1 && Div(d, 2 * p) == 0
  {
    MulUnit(p);
    MulUnit(2 * p);
    FloorDiv(d, p, 1, d - p);
    FloorDiv(d, 2 * p, 0, d);
  }
}
