/** Montgomery reduction, and the remainder it is checked against. */
module Montgomery {
  import opened JsNumber
  import opened Digits
  import opened BigIntegers
  import opened Multiply
  import opened Division
  import opened Congruence
  import opened Reducers
  import Compare

  /** crypto.js `bnMod`: for a positive modulus, the remainder that is not negative. */
  method Modulo(x: BigInteger, a: BigInteger) returns (r: BigInteger)
    requires x.Normal() && a.Normal() && a.Value() > 0
    ensures fresh(r) && r.Normal() && r.Value() == Mod(x.Value(), a.Value())
  {
    hide Val;
    hide B;
    hide Mul;
    hide ValueOf;
    hide Div;
    hide Mod;
    Compare.Bounds(x.arr, x.t, x.s);
    Compare.Bounds(a.arr, a.t, a.s);
    r := new BigInteger();
    var y := Abs(x);
    assert fresh(r) && r != y && r != a;
    DivRemTo(y, a, null, r);
    TruncOfAbs(y.Value(), a.Value());
    Wrap(x.Value(), x.s < 0, a, r);
  }

  /** The remainder of a negative number is counted back from the modulus. */
  method Wrap(ghost x: int, negative: bool, a: BigInteger, r: BigInteger)
    requires a.Normal() && a.Value() > 0 && r.Normal() && r != a && (negative <==> x < 0)
    requires r.Value() == Mod(if x < 0 then -x else x, a.Value())
    modifies r
    ensures r.Normal() && r.Value() == Mod(x, a.Value())
  {
    hide Val;
    hide B;
    hide Mul;
    hide Div;
    hide Mod;
    Compare.Bounds(r.arr, r.t, r.s);
    var zero := new BigInteger();
    var c := r.CompareTo(zero);
    Compare.CompareOrders(r.arr, r.t, r.s, zero.arr, zero.t, zero.s);
    if negative && c > 0 {
      WrapAround(x, a.Value());
      a.SubTo(r, r);
    } else if x < 0 {
      WrapAround(x, a.Value());
    }
  }

  lemma WrapAround(x: int, m: int)
    requires m > 0
    ensures Mod(x, m) == if Mod(-x, m) == 0 then 0 else m - Mod(-x, m)
  {
    DivMod(-x, m);
    var q, r := Div(-x, m), Mod(-x, m);
    hide Mul;
    hide Div;
    hide Mod;
    MulNeg(q, m);
    MulNeg(q + 1, m);
    MulAdd(q, 1, m);
    MulUnit(m);
    if r == 0 {
      FloorDiv(x, m, -q, 0);
    } else {
      FloorDiv(x, m, -(q + 1), m - r);
    }
  }

  /** JavaScript `%`: the remainder has the sign of the dividend. */
  function JsRem(a: int, b: int): int
    requires b > 0
  {
    if a >= 0 then a % b else -((-a) % b)
  }

  lemma JsRemCong(a: int, b: int)
    requires b > 0
    ensures Cong(JsRem(a, b), a, b) && -b < JsRem(a, b) < b
  {
    CongMod(a, b);
    if a < 0 {
      CongMod(-a, b);
      CongAdd(0, 0, Mod(-a, b), -a, b);
    }
  }

  /** crypto.js `bnpInvDigit`: minus the inverse of this modulo 2^28, by Newton's iteration on 2, 4,
      8, 16 and 28 bits; 0 when there is none. */
  method InvDigit(m: BigInteger) returns (r: int)
    requires m.Valid()
    ensures m.t < 1 || m.arr[0] % 2 == 0 ==> r == 0
    ensures m.t >= 1 && m.arr[0] % 2 == 1 ==> 0 <= r < DV && Cong(Mul(m.arr[0], r), -1, DV)
  {
    hide Mul;
    hide Mod;
    hide Cong;
    if m.t < 1 { return 0; }
    var x := m.arr[0];
    if Mask(x, 2) == 0 { return 0; }
    var y := Mask(x, 4);
    NewtonStart(x);
    NewtonMasked(x, y, 4, 0x10);
    y := Mask(y * (2 - Mask(x, 0x10) * y), 0x10);
    NewtonMasked(x, y, 0x10, 0x100);
    y := Mask(y * (2 - Mask(x, 0x100) * y), 0x100);
    NewtonTwice(x, y);
    y := Mask(y * (2 - Mask(Mask(x, 0x10000) * y, 0x10000)), 0x10000);
    NewtonLast(x, y);
    y := JsRem(y * (2 - JsRem(x * y, DV)), DV);
    r := if y > 0 then DV - y else -y;
    NegatedInverse(x, y, r);
  }

  lemma NewtonStart(x: int)
    requires x % 2 == 1
    ensures Cong(Mul(x, Mask(x, 4)), 1, 4)
  {
    var y := x % 4;
    CongMod(x, 4);
    CongMul(x, y, y, y, 4);
    assert Mul(y, y) == 1 || Mul(y, y) == 9;
  }

  /** If y inverts x modulo m then y * (2 - x * y) inverts it modulo m * m, and so modulo `mm`; the
      factor may be taken modulo `mm` too. */
  lemma Newton(x: int, y: int, m: int, c: int, mm: int, t: int, y': int)
    requires m > 0 && mm > 0 && m * m == c * mm && Cong(Mul(x, y), 1, m)
    requires Cong(t, Mul(x, y), mm) && Cong(y', Mul(y, 2 - t), mm)
    ensures Cong(Mul(x, y'), 1, mm)
  {
    var k := CongWitness(Mul(x, y), 1, m);
    hide Cong;
    CongRefl(x, mm);
    CongRefl(y, mm);
    CongRefl(2, mm);
    CongAdd(2, 2, t, Mul(x, y), mm);
    CongMul(y, y, 2 - t, 2 - Mul(x, y), mm);
    CongTrans(y', Mul(y, 2 - t), Mul(y, 2 - Mul(x, y)), mm);
    CongMul(x, x, y', Mul(y, 2 - Mul(x, y)), mm);
    NewtonAlgebra(x, y, k, m, c, mm);
    CongIntro(Mul(x, Mul(y, 2 - Mul(x, y))), 1, -(k * k) * c, mm);
    CongTrans(Mul(x, y'), Mul(x, Mul(y, 2 - Mul(x, y))), 1, mm);
  }

  lemma NewtonAlgebra(x: int, y: int, k: int, m: int, c: int, mm: int)
    requires Mul(x, y) == 1 + Mul(k, m) && m * m == c * mm
    ensures Mul(x, Mul(y, 2 - Mul(x, y))) == 1 + Mul(-(k * k) * c, mm)
  {
    var z := k * m;
    assert x * (y * (2 - x * y)) == (x * y) * (2 - x * y);
    assert (1 + z) * (1 - z) == 1 - z * z;
    assert z * z == (k * k) * (m * m);
    assert (k * k) * (c * mm) == ((k * k) * c) * mm;
    assert (-(k * k) * c) * mm == -(((k * k) * c) * mm);
  }

  lemma CongRefl(a: int, m: int)
    requires m > 0
    ensures Cong(a, a, m)
  {}

  lemma CongTrans(a: int, b: int, c: int, m: int)
    requires Cong(a, b, m) && Cong(b, c, m)
    ensures Cong(a, c, m)
  {}

  lemma NewtonMasked(x: int, y: int, m: int, mm: int)
    requires m > 0 && mm == m * m && Cong(Mul(x, y), 1, m)
    ensures Cong(Mul(x, Mask(y * (2 - Mask(x, mm) * y), mm)), 1, mm)
  {
    var t := Mask(x, mm) * y;
    CongMod(x, mm);
    CongRefl(y, mm);
    CongMul(Mask(x, mm), x, y, y, mm);
    CongMod(y * (2 - t), mm);
    Newton(x, y, m, 1, mm, t, Mask(y * (2 - t), mm));
  }

  lemma NewtonTwice(x: int, y: int)
    requires Cong(Mul(x, y), 1, 0x100)
    ensures Cong(Mul(x, Mask(y * (2 - Mask(Mask(x, 0x10000) * y, 0x10000)), 0x10000)), 1, 0x10000)
  {
    var t := Mask(Mask(x, 0x10000) * y, 0x10000);
    CongMod(x, 0x10000);
    CongRefl(y, 0x10000);
    CongMul(Mask(x, 0x10000), x, y, y, 0x10000);
    CongMod(Mask(x, 0x10000) * y, 0x10000);
    CongMod(y * (2 - t), 0x10000);
    Newton(x, y, 0x100, 1, 0x10000, t, Mask(y * (2 - t), 0x10000));
  }

  lemma NewtonLast(x: int, y: int)
    requires Cong(Mul(x, y), 1, 0x10000)
    ensures Cong(Mul(x, JsRem(y * (2 - JsRem(x * y, DV)), DV)), 1, DV)
    ensures -DV < JsRem(y * (2 - JsRem(x * y, DV)), DV) < DV
  {
    var t := JsRem(x * y, DV);
    JsRemCong(x * y, DV);
    JsRemCong(y * (2 - t), DV);
    Newton(x, y, 0x10000, 0x10, DV, t, JsRem(y * (2 - t), DV));
  }

  lemma NegatedInverse(x: int, y: int, r: int)
    requires Cong(Mul(x, y), 1, DV) && r == if y > 0 then DV - y else -y
    ensures Cong(Mul(x, r), -1, DV)
  {
    hide Cong;
    hide Mul;
    MulNeg(x, y);
    MulSub(DV, y, x);
    CongRefl(0, DV);
    CongAdd(0, 0, Mul(x, y), 1, DV);
    if y > 0 {
      CongIntro(Mul(x, r), -Mul(x, y), x, DV);
      CongTrans(Mul(x, r), -Mul(x, y), -1, DV);
    }
  }

  /** The product of a digit and `mp` modulo 2^28, computed from 15-bit halves. */
  lemma SplitProduct(x: int, mp: int)
    requires 0 <= x < DV && 0 <= mp < DV
    ensures var j, h, l, k := Mask(x, 0x8000), Sar(x, 0x8000), Mask(mp, 0x8000), Sar(mp, 0x8000);
            var u := Mask(j * l + Shl(Mask(j * k + h * l, 0x2000), 0x8000), DV);
            Cong(u, Mul(x, mp), DV)
  {
    var j, h, l, k := Mask(x, 0x8000), Sar(x, 0x8000), Mask(mp, 0x8000), Sar(mp, 0x8000);
    var t := j * k + h * l;
    assert x == h * 0x8000 + j && mp == k * 0x8000 + l;
    SplitAlgebra(h, j, k, l);
    var q := t / 0x2000;
    assert Shl(Mask(t, 0x2000), 0x8000) == (t - q * 0x2000) * 0x8000;
    CongMod(j * l + (t - q * 0x2000) * 0x8000, DV);
    assert j * l + (t - q * 0x2000) * 0x8000 == Mul(x, mp) + Mul(-q - 4 * (h * k), DV);
    CongIntro(j * l + (t - q * 0x2000) * 0x8000, Mul(x, mp), -q - 4 * (h * k), DV);
  }

  lemma SplitAlgebra(h: int, j: int, k: int, l: int)
    ensures (h * 0x8000 + j) * (k * 0x8000 + l) == 4 * (h * k) * DV + (j * k + h * l) * 0x8000 + j * l
  {}

  /** After `i` steps a multiple of the modulus has been added that clears the lowest `i` digits. */
  ghost predicate Reducing(x: Cells, n: nat, i: nat, start: int, m: int, u: int) {
    && i <= n && IsDigits(x, 0, 2 * n + 1) && (forall k :: 0 <= k < i ==> x[k] == 0)
    && 0 <= u < B(i) && Val(x, 0, 2 * n + 1) == start + Mul(m, u)
  }

  /** crypto.js `montReduce`: x / 2^(28 t) modulo m, for the modulus of `t` digits. */
  method MontReduce(z: Reducer, x: BigInteger)
    requires z.Montgomery? && ValidMontgomery(z) && x != z.m
    requires x.Valid() && x.s == 0 && x.t <= z.mt2 + 1 && x.Value() < Mul(z.m.Value(), B(z.m.t))
    modifies x
    ensures x.Normal() && 0 <= x.Value() < z.m.Value()
    ensures Cong(Mul(x.Value(), B(z.m.t)), old(x.Value()), z.m.Value())
  {
    hide Val;
    hide B;
    hide Mul;
    hide Div;
    hide Mod;
    hide ValueOf;
    hide Reducing;
    hide Cong;
    ghost var m, start := z.m.Value(), x.Value();
    assert 0 <= start by { Unsigned(x.arr, x.t); ValBound(x.arr, 0, x.t); }
    PadTo(x, z.mt2 + 1);
    ReducingStart(x.arr, z.m.t, start, m);
    var i := 0;
    ghost var u := 0;
    while i < z.m.t
      invariant 0 <= i <= z.m.t && x.s == 0 && x.t == z.mt2 + 1
      invariant Reducing(x.arr, z.m.t, i, start, m, u)
    {
      u := MontStep(z, x, i, start, m, u);
      i := i + 1;
    }
    ReducingZeros(x.arr, z.m.t, i, start, m, u);
    MontFinish(z.m, x, start, u);
  }

  /** The end of `montReduce`: drop the cleared digits, and subtract the modulus if that is not enough. */
  method MontFinish(m: BigInteger, x: BigInteger, ghost start: int, ghost u: int)
    requires Modulus(m) && x != m && x.Valid() && x.s == 0 && x.t == 2 * m.t + 1
    requires 0 <= start < Mul(m.Value(), B(m.t)) && Reducing(x.arr, m.t, m.t, start, m.Value(), u)
    modifies x
    ensures x.Normal() && 0 <= x.Value() < m.Value() && Cong(Mul(x.Value(), B(m.t)), start, m.Value())
  {
    hide Val;
    hide B;
    hide Mul;
    hide Div;
    hide Mod;
    hide ValueOf;
    hide Cong;
    ReducingDigits(x.arr, m.t, m.t, start, m.Value(), u);
    hide Reducing;
    Unsigned(x.arr, x.t);
    ghost var total := x.Value();
    x.Clamp();
    x.DRShiftTo(m.t, x);
    ReducedEnd(x.Value(), total, m.t, start, m.Value(), u);
    Compare.Bounds(x.arr, x.t, x.s);
    var c := x.CompareTo(m);
    Compare.CompareOrders(x.arr, x.t, x.s, m.arr, m.t, m.s);
    if c >= 0 {
      ReducedOnce(x.Value(), B(m.t), start, m.Value());
      x.SubTo(m, x);
    }
  }

  /** `while(x.t <= n) x_array[x.t++] = 0` */
  method PadTo(x: BigInteger, n: nat)
    requires x.Valid() && x.s == 0 && x.t <= n
    modifies x
    ensures x.Valid() && x.s == 0 && x.t == n && x.Value() == old(x.Value()) == Val(x.arr, 0, n)
  {
    hide Val;
    hide B;
    hide Mul;
    Unsigned(x.arr, x.t);
    while x.t < n
      invariant x.t <= n && x.Valid() && x.s == 0 && Val(x.arr, 0, x.t) == old(x.Value())
    {
      ghost var before := x.arr;
      x.arr := x.arr[x.t := 0];
      x.t := x.t + 1;
      ProductTop(before, x.arr, x.t - 1, 0);
      MulUnit(B(x.t - 1));
    }
    Unsigned(x.arr, n);
  }

  lemma ReducingStart(x: Cells, n: nat, start: int, m: int)
    requires IsDigits(x, 0, 2 * n + 1) && Val(x, 0, 2 * n + 1) == start
    ensures Reducing(x, n, 0, start, m, 0)
  {
    MulUnit(m);
  }

  lemma ReducingDigits(x: Cells, n: nat, i: nat, start: int, m: int, u: int)
    requires Reducing(x, n, i, start, m, u)
    ensures IsDigits(x, 0, 2 * n + 1) && 0 <= u < B(i) && Val(x, 0, 2 * n + 1) == start + Mul(m, u)
    ensures i <= 2 * n + 1 ==> Div(Val(x, 0, 2 * n + 1), B(i)) * B(i) == Val(x, 0, 2 * n + 1)
  {
    hide Val;
    hide B;
    if i <= 2 * n + 1 {
      ValSplit(x, 0, i, 2 * n + 1 - i);
      ValZero(x, 0, i);
      MulComm(B(i), Val(x, i, 2 * n + 1 - i));
      FloorDiv(Val(x, 0, 2 * n + 1), B(i), Val(x, i, 2 * n + 1 - i), 0);
    }
  }

  /** The body of the loop of `montReduce`. */
  method MontStep(z: Reducer, x: BigInteger, i: nat, ghost start: int, ghost m: int, ghost u: int) returns (ghost u': int)
    requires z.Montgomery? && ValidMontgomery(z) && x != z.m && i < z.m.t && m == z.m.Value()
    requires 0 <= start < Mul(m, B(z.m.t)) && Reducing(x.arr, z.m.t, i, start, m, u)
    modifies x`arr
    ensures Reducing(x.arr, z.m.t, i + 1, start, m, u')
  {
    hide Val;
    hide B;
    hide Mul;
    hide Div;
    hide Mod;
    hide ValueOf;
    hide Cong;
    ghost var x0, n := x.arr, z.m.t;
    ReducingDigits(x0, n, i, start, m, u);
    ReducingZeros(x0, n, i, start, m, u);
    hide Reducing;
    var u0 := MontFactor(z, x.arr[i]);
    var j := i + z.m.t;
    var c := z.m.Am(0, u0, x, i, 0, z.m.t);
    ghost var x1 := x.arr;
    x.arr := x.arr[j := x.arr[j] + c];
    Unsigned(z.m.arr, n);
    ValBound(z.m.arr, 0, n);
    u' := u + Mul(u0, B(i));
    MontDigit(z.m.arr, n, x0, x1, i, u0, c, z.mp);
    MontSum(x0, x1, x.arr, n, i, u0, c, m, start, u);
    MontBound(n, i, start, m, u, u0);
    MontCells(x0, x1, x.arr, n, i, c);
    ghost var x2 := x.arr;
    CarryUp(x, j, n);
    MontDone(x2, x.arr, n, i, start, m, u');
  }

  /** How `montReduce` computes x[i] * mp modulo 2^28 without leaving the exact range of a double. */
  method MontFactor(z: Reducer, d: int) returns (u0: int)
    requires z.Montgomery? && ValidMontgomery(z) && 0 <= d < DV
    ensures 0 <= u0 < DV && Cong(u0, Mul(d, z.mp), DV)
  {
    hide Mul;
    hide Cong;
    var j := Mask(d, 0x8000);
    u0 := Mask(j * z.mpl + Shl(Mask(j * z.mph + Sar(d, 0x8000) * z.mpl, z.um + 1), 0x8000), DV);
    SplitProduct(d, z.mp);
  }

  lemma ReducingZeros(x: Cells, n: nat, i: nat, start: int, m: int, u: int)
    requires Reducing(x, n, i, start, m, u)
    ensures i <= n && IsDigits(x, 0, 2 * n + 1) && forall k :: 0 <= k < i ==> x[k] == 0
  {}

  /** The multiple of the modulus that is added clears digit `i`, and its carry is a digit. */
  lemma MontDigit(m: Cells, n: nat, x0: Cells, x1: Cells, i: nat, u0: int, c: int, mp: int)
    requires n > 0 && IsDigits(m, 0, n) && IsDigits(x0, i, n) && IsDigits(x1, i, n) && 0 <= u0 < DV
    requires Val(x1, i, n) + Mul(c, B(n)) == Val(x0, i, n) + Mul(u0, Val(m, 0, n)) + 0
    requires Cong(Mul(m[0], mp), -1, DV) && Cong(u0, Mul(x0[i], mp), DV)
    ensures x1[i] == 0 && c < DV
  {
    hide Val;
    hide B;
    hide Mul;
    hide Cong;
    ValBound(x1, i, n);
    ValBound(x0, i, n);
    ValBound(m, 0, n);
    CarryFits(c, B(n), u0, Val(m, 0, n), Val(x1, i, n), Val(x0, i, n));
    ValLow(x1, i, n - 1);
    ValLow(x0, i, n - 1);
    ValLow(m, 0, n - 1);
    BStep(n - 1);
    MulConst(DV, c, B(n - 1));
    MulAdd(m[0], DV * Val(m, 1, n - 1), u0);
    MulConst(DV, u0, Val(m, 1, n - 1));
    var k := Val(x0, i + 1, n - 1) + Mul(u0, Val(m, 1, n - 1)) - Mul(c, B(n - 1)) - Val(x1, i + 1, n - 1);
    MulDV(k);
    CongIntro(x1[i], x0[i] + Mul(u0, m[0]), k, DV);
    MontClears(x0[i], m[0], mp, u0);
    CongTrans(x1[i], x0[i] + Mul(u0, m[0]), 0, DV);
    CongZero(x1[i], DV);
  }

  lemma CongZero(a: int, m: int)
    requires Cong(a, 0, m) && 0 <= a < m
    ensures a == 0
  {
    CongSmall(a, 0, m);
  }

  lemma MontClears(x: int, m0: int, mp: int, u0: int)
    requires Cong(Mul(m0, mp), -1, DV) && Cong(u0, Mul(x, mp), DV)
    ensures Cong(x + Mul(u0, m0), 0, DV)
  {
    hide Cong;
    hide Mul;
    CongRefl(m0, DV);
    CongRefl(x, DV);
    CongMul(u0, Mul(x, mp), m0, m0, DV);
    CongMul(x, x, Mul(m0, mp), -1, DV);
    MulAssoc(x, mp, m0);
    MulComm(mp, m0);
    MulUnit(x);
    CongTrans(Mul(u0, m0), Mul(x, Mul(m0, mp)), -x, DV);
    CongAdd(x, x, Mul(u0, m0), -x, DV);
  }

  lemma MontSum(x0: Cells, x1: Cells, x2: Cells, n: nat, i: nat, u0: int, c: int, m: int, start: int, u: int)
    requires i < n && SameOutside(x0, x1, i, i + n) && i + n in x0 && x2 == x1[i + n := Digit(x1, i + n) + c]
    requires Val(x1, i, n) + Mul(c, B(n)) == Val(x0, i, n) + Mul(u0, m) + 0
    requires Val(x0, 0, 2 * n + 1) == start + Mul(m, u)
    ensures Val(x2, 0, 2 * n + 1) == start + Mul(m, u + Mul(u0, B(i)))
  {
    hide Val;
    hide B;
    hide Mul;
    var p, w0, w2, h := B(i), Val(x0, i, n + 1), Val(x2, i, n + 1), Mul(B(n + 1), Val(x0, i + n + 1, n - i));
    MontFrame(x0, x1, x2, n, i, c);
    ValSplit(x0, 0, i, 2 * n + 1 - i);
    ValSplit(x2, 0, i, 2 * n + 1 - i);
    ValSplit(x0, i, n + 1, n - i);
    ValSplit(x2, i, n + 1, n - i);
    ValStep(x0, i, n);
    ValStep(x2, i, n);
    MulAdd(Digit(x0, i + n), c, B(n));
    assert w2 == w0 + Mul(u0, m);
    MulAdd(w0 + h, Mul(u0, m), p);
    MulAdd(u, Mul(u0, p), m);
    MulComm(u0, m);
    MulAssoc(m, u0, p);
    MulComm(p, Mul(m, u0));
  }

  lemma MontFrame(x0: Cells, x1: Cells, x2: Cells, n: nat, i: nat, c: int)
    requires i < n && SameOutside(x0, x1, i, i + n) && x2 == x1[i + n := Digit(x1, i + n) + c]
    ensures Val(x2, 0, i) == Val(x0, 0, i) && Val(x2, i, n) == Val(x1, i, n)
    ensures Digit(x2, i + n) == Digit(x0, i + n) + c
    ensures Val(x2, i + n + 1, n - i) == Val(x0, i + n + 1, n - i)
  {
    hide Val;
    hide B;
    ValFrame(x2, x0, 0, i);
    ValFrame(x2, x1, i, n);
    ValFrame(x2, x0, i + n + 1, n - i);
  }

  lemma MontBound(n: nat, i: nat, start: int, m: int, u: int, u0: int)
    requires i < n && 0 <= u < B(i) && 0 <= u0 < DV && 0 < m < B(n) && 0 <= start < Mul(m, B(n))
    ensures 0 <= u + Mul(u0, B(i)) < B(i + 1)
    ensures start + Mul(m, u + Mul(u0, B(i))) < B(2 * n + 1)
  {
    hide B;
    hide Mul;
    BStep(i);
    MulLe(u0, DM, B(i));
    MulLe(0, u0, B(i));
    MulConst(DM, 1, B(i));
    MulUnit(B(i));
    BMonotonic(i + 1, n);
    MulLe(u + Mul(u0, B(i)), B(n), m);
    MulLe(m, B(n), B(n));
    BAdd(n, n);
    BStep(2 * n);
  }

  lemma MontCells(x0: Cells, x1: Cells, x2: Cells, n: nat, i: nat, c: int)
    requires i < n && IsDigits(x0, 0, 2 * n + 1) && IsDigits(x1, i, n) && SameOutside(x0, x1, i, i + n)
    requires forall k :: 0 <= k < i ==> x0[k] == 0
    requires i + n in x1 && x2 == x1[i + n := x1[i + n] + c] && 0 <= c < DV && x1[i] == 0
    ensures 0 <= x2[i + n] < 2 * DV
    ensures forall k :: 0 <= k < 2 * n + 1 && k != i + n ==> k in x2 && 0 <= x2[k] < DV
    ensures forall k :: 0 <= k < i + 1 ==> x2[k] == 0
  {
    DigitsPatched(x0, x1, i, i + n, 0, 2 * n + 1);
    forall k | 0 <= k < i
      ensures x2[k] == 0
    {
      assert Digit(x1, k) == Digit(x0, k);
    }
  }

  /** The carry loop of `montReduce`.  It never passes digit 2 t, as the sum fits below it. */
  method CarryUp(x: BigInteger, j0: nat, ghost n: nat)
    requires j0 <= 2 * n && j0 in x.arr && 0 <= x.arr[j0] < 2 * DV
    requires forall k :: 0 <= k < 2 * n + 1 && k != j0 ==> k in x.arr && 0 <= x.arr[k] < DV
    requires Val(x.arr, 0, 2 * n + 1) < B(2 * n + 1)
    modifies x`arr
    ensures IsDigits(x.arr, 0, 2 * n + 1) && Val(x.arr, 0, 2 * n + 1) == old(Val(x.arr, 0, 2 * n + 1))
    ensures forall k :: 0 <= k < j0 ==> x.arr[k] == old(x.arr[k])
  {
    hide Val;
    hide B;
    hide Mul;
    var j := j0;
    while x.arr[j] >= DV
      invariant j0 <= j <= 2 * n && j in x.arr && 0 <= x.arr[j] < 2 * DV
      invariant forall k :: 0 <= k < 2 * n + 1 && k != j ==> k in x.arr && 0 <= x.arr[k] < DV
      invariant Val(x.arr, 0, 2 * n + 1) == old(Val(x.arr, 0, 2 * n + 1))
      invariant forall k :: 0 <= k < j0 ==> x.arr[k] == old(x.arr[k])
      decreases 2 * n - j
    {
      ghost var before := x.arr;
      TopFits(before, n, j);
      x.arr := x.arr[j := x.arr[j] - DV];
      j := j + 1;
      x.arr := x.arr[j := x.arr[j] + 1];
      CarryMove(before, x.arr, j - 1, 2 * n + 1);
    }
  }

  lemma TopFits(x: Cells, n: nat, j: nat)
    requires j <= 2 * n && j in x && x[j] >= DV && Val(x, 0, 2 * n + 1) < B(2 * n + 1)
    requires forall k :: 0 <= k < 2 * n + 1 && k != j ==> k in x && 0 <= x[k] < DV
    ensures j < 2 * n
  {
    hide Val;
    hide B;
    hide Mul;
    if j == 2 * n {
      ValStep(x, 0, j);
      ValBound(x, 0, j);
      BStep(j);
      MulLe(DV, x[j], B(j));
      MulConst(DV, 1, B(j));
      MulUnit(B(j));
    }
  }

  lemma CarryMove(a: Cells, b: Cells, j: nat, n: nat)
    requires j + 2 <= n && j in a && j + 1 in a
    requires b == a[j := a[j] - DV][j + 1 := a[j + 1] + 1]
    ensures Val(a, 0, n) == Val(b, 0, n)
  {
    hide Val;
    hide B;
    hide Mul;
    ValFrame(a, b, 0, j);
    ValFrame(a, b, j + 2, n - j - 2);
    ValSplit(a, 0, j, n - j);
    ValSplit(b, 0, j, n - j);
    ValLow(a, j, n - j - 1);
    ValLow(b, j, n - j - 1);
    ValLow(a, j + 1, n - j - 2);
    ValLow(b, j + 1, n - j - 2);
  }

  lemma MontDone(x2: Cells, x: Cells, n: nat, i: nat, start: int, m: int, u: int)
    requires i < n && IsDigits(x, 0, 2 * n + 1) && 0 <= u < B(i + 1)
    requires Val(x, 0, 2 * n + 1) == Val(x2, 0, 2 * n + 1) == start + Mul(m, u)
    requires forall k :: 0 <= k < i + 1 ==> k in x2 && x2[k] == 0 && x[k] == x2[k]
    ensures Reducing(x, n, i + 1, start, m, u)
  {}

  /** What is left is the sum divided by 2^(28 t): twice the modulus bounds it. */
  lemma ReducedEnd(y: int, total: int, n: nat, start: int, m: int, u: int)
    requires 0 < m && 0 <= start < Mul(m, B(n)) && 0 <= u < B(n)
    requires total == start + Mul(m, u) && y == Div(total, B(n)) && Div(total, B(n)) * B(n) == total
    ensures 0 <= y < 2 * m && Cong(Mul(y, B(n)), start, m)
  {
    hide Mul;
    MulComm(m, u);
    assert Mul(y, B(n)) == total by { MulIsProduct(y, B(n)); }
    hide B;
    CongIntro(Mul(y, B(n)), start, u, m);
    MulLe(0, u, m);
    MulUnit(m);
    MulUnit(B(n));
    MulLess(u, B(n), m);
    MulConst(2, m, B(n));
    if y >= 2 * m {
      MulLe(2 * m, y, B(n));
    }
    if y < 0 {
      MulLess(y, 0, B(n));
    }
  }

  lemma MulIsProduct(x: int, y: int)
    ensures Mul(x, y) == x * y
  {}

  lemma ReducedOnce(y: int, r: int, start: int, m: int)
    requires m > 0 && Cong(Mul(y, r), start, m)
    ensures Cong(Mul(y - m, r), start, m)
  {
    hide Cong;
    hide Mul;
    MulSub(y, m, r);
    MulComm(m, r);
    MulNeg(r, m);
    CongIntro(Mul(y - m, r), Mul(y, r), -r, m);
    CongTrans(Mul(y - m, r), Mul(y, r), start, m);
  }

  /** crypto.js `montConvert`: x * R modulo m, where R = 2^(28 t).  For x = 0 the digit shift leaves a
      zero with digits, which the division takes. */
  method MontConvert(z: Reducer, x: BigInteger) returns (r: BigInteger)
    requires z.Montgomery? && Modulus(z.m) && x.Normal()
    ensures fresh(r) && r.Normal() && r.Value() == Mod(Mul(x.Value(), B(z.m.t)), z.m.Value())
  {
    hide Val;
    hide B;
    hide Mul;
    hide Div;
    hide Mod;
    hide ValueOf;
    ghost var v, b := x.Value(), B(z.m.t);
    Compare.Bounds(x.arr, x.t, x.s);
    r := new BigInteger();
    var a := Abs(x);
    Compare.Bounds(a.arr, a.t, a.s);
    MulNeg(v, b);
    MulUnit(b);
    SignOfProduct(v, b);
    a.DLShiftTo(z.m.t, r);
    if r.Normal() { Compare.Bounds(r.arr, r.t, r.s); }
    DivRemTo(r, z.m, null, r);
    TruncOfAbs(Mul(if v < 0 then -v else v, b), z.m.Value());
    Wrap(Mul(v, b), x.s < 0, z.m, r);
  }

  lemma SignOfProduct(v: int, b: int)
    requires b > 0
    ensures Mul(v, b) < 0 <==> v < 0
    ensures Mul(if v < 0 then -v else v, b) == if v < 0 then -Mul(v, b) else Mul(v, b)
  {
    MulNeg(v, b);
    if v < 0 { MulLess(v, 0, b); } else { MulLe(0, v, b); }
  }
}
