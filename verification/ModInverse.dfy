/** The modular inverse by the binary extended Euclidean algorithm. */
module ModInverse {
  import opened JsNumber
  import opened Digits
  import opened BigIntegers
  import opened Shifts
  import opened Multiply
  import opened Congruence
  import opened Reductions
  import opened Montgomery
  import opened Exponents
  import opened NumberTheory
  import opened Primality
  import opened Rsa
  import opened Gcd
  import Compare

  /** How `u` is written with the coefficients `a` of m and `b` of x: exactly for an even m, modulo m
      for an odd one, where `a` is not kept. */
  ghost predicate Combination(ac: bool, a: int, b: int, x: int, m: int, u: int) {
    if ac then Mul(a, m) + Mul(b, x) == u else Cong(Mul(b, x), u, m)
  }

  ghost predicate Operands(ac: bool, x: int, m: int) {
    x > 0 && m > 0 && (ac <==> m % 2 == 0) && (ac ==> x % 2 == 1)
  }

  lemma EvenProduct(b: int, x: int)
    requires x % 2 == 1 && Mul(b, x) % 2 == 0
    ensures b % 2 == 0
  {
    var w := x / 2;
    assert x == 2 * w + 1;
    assert b * (2 * w + 1) == 2 * (b * w) + b;
  }

  lemma MulEven(a: int, m: int)
    requires m % 2 == 0
    ensures Mul(a, m) % 2 == 0
  {
    var w := m / 2;
    assert m == 2 * w;
    assert a * (2 * w) == 2 * (a * w);
  }

  /** The coefficients after the adjustment that makes them even. */
  lemma AdjustedExact(a: int, b: int, x: int, m: int, u: int)
    requires Operands(true, x, m) && Combination(true, a, b, x, m, u) && u % 2 == 0
    ensures b % 2 == 0
    ensures a % 2 != 0 || b % 2 != 0 ==> (a + x) % 2 == 0 && (b - m) % 2 == 0
    ensures Combination(true, a + x, b - m, x, m, u)
  {
    MulEven(a, m);
    assert Mul(b, x) % 2 == 0 by {
      hide Mul;
    }
    EvenProduct(b, x);
    hide Mul;
    MulAdd(a, x, m);
    MulSub(b, m, x);
    MulComm(x, m);
  }

  lemma HalvedExact(a: int, b: int, x: int, m: int, u: int)
    requires Combination(true, a, b, x, m, u) && a % 2 == 0 && b % 2 == 0 && u % 2 == 0
    ensures Combination(true, a / 2, b / 2, x, m, u / 2)
  {
    MulConst(2, a / 2, m);
    MulConst(2, b / 2, x);
  }

  lemma AdjustedCong(a: int, b: int, x: int, m: int, u: int)
    requires Operands(false, x, m) && Combination(false, a, b, x, m, u)
    ensures Combination(false, a, b - m, x, m, u) && (b % 2 != 0 ==> (b - m) % 2 == 0)
  {
    MulSub(b, m, x);
    MulComm(m, x);
    MulNeg(x, m);
    hide Mul;
    CongIntro(Mul(b - m, x), Mul(b, x), -x, m);
    CongTrans(Mul(b - m, x), Mul(b, x), u, m);
  }

  /** Modulo an odd number, 2 can be cancelled. */
  lemma HalvedCong(a: int, b: int, x: int, m: int, u: int)
    requires Operands(false, x, m) && Combination(false, a, b, x, m, u) && b % 2 == 0 && u % 2 == 0
    ensures Combination(false, a, b / 2, x, m, u / 2)
  {
    MulConst(2, b / 2, x);
    var h := (m + 1) / 2;
    assert Mul(Mul(b / 2, x), 2) == Mul(b, x) && Mul(u / 2, 2) == u;
    MulUnit(m);
    assert Mul(2, h) == 1 + Mul(1, m);
    hide Mul;
    CongIntro(Mul(2, h), 1, 1, m);
    CancelFactor(Mul(b / 2, x), u / 2, 2, h, m);
  }

  lemma Subtraction(ac: bool, a: int, b: int, c: int, d: int, x: int, m: int, u: int, v: int)
    requires Combination(ac, a, b, x, m, u) && Combination(ac, c, d, x, m, v)
    ensures Combination(ac, a - c, b - d, x, m, u - v)
  {
    MulSub(a, c, m);
    MulSub(b, d, x);
    hide Mul;
    if !ac {
      CongAdd(Mul(b, x), u, Mul(d, x), v, m);
    }
  }

  // ---- the loops as functions of their numbers

  /** One of the two equations that the loops keep: `u` with its coefficients. */
  datatype Row = Row(u: int, a: int, b: int)

  ghost function HalvedOnce(ac: bool, r: Row, x: int, m: int): Row {
    if !ac then Row(r.u / 2, r.a, (if r.b % 2 != 0 then r.b - m else r.b) / 2)
    else if r.a % 2 != 0 || r.b % 2 != 0 then Row(r.u / 2, (r.a + x) / 2, (r.b - m) / 2)
    else Row(r.u / 2, r.a / 2, r.b / 2)
  }

  /** What an inner loop makes of a row. */
  ghost function HalvedRow(ac: bool, r: Row, x: int, m: int): (s: Row)
    requires r.u > 0
    ensures 0 < s.u <= r.u && s.u % 2 == 1
    decreases r.u
  {
    if r.u % 2 == 0 then HalvedRow(ac, HalvedOnce(ac, r, x, m), x, m) else r
  }

  ghost function Minus(ac: bool, r: Row, s: Row): Row {
    Row(r.u - s.u, if ac then r.a - s.a else r.a, r.b - s.b)
  }

  /** The row that is left at the end of the main loop. */
  ghost function LastRow(ac: bool, r: Row, s: Row, x: int, m: int): Row
    requires r.u >= 0 && s.u > 0
    decreases r.u + s.u
  {
    if r.u == 0 then s
    else
      var p, q := HalvedRow(ac, r, x, m), HalvedRow(ac, s, x, m);
      if p.u >= q.u then LastRow(ac, Minus(ac, p, q), q, x, m) else LastRow(ac, p, Minus(ac, q, p), x, m)
  }

  /** The coefficient of x that the main loop comes to. */
  ghost function Coefficient(x: int, m: int): int
    requires x > 0 && m > 0
  {
    LastRow(m % 2 == 0, Row(m, 1, 0), Row(x, 0, 1), x, m).b
  }

  ghost function RowOf(u: BigInteger, a: BigInteger, b: BigInteger): Row
    requires u.Valid() && a.Valid() && b.Valid()
    reads u, a, b
  {
    Row(u.Value(), a.Value(), b.Value())
  }

  lemma HalvedNext(ac: bool, r: Row, x: int, m: int)
    requires r.u > 0
    ensures r.u % 2 == 0 ==> HalvedOnce(ac, r, x, m).u == r.u / 2 > 0
    ensures r.u % 2 == 0 ==> HalvedRow(ac, r, x, m) == HalvedRow(ac, HalvedOnce(ac, r, x, m), x, m)
    ensures r.u % 2 != 0 ==> HalvedRow(ac, r, x, m) == r
  {}

  lemma LastNext(ac: bool, r: Row, s: Row, x: int, m: int)
    requires r.u >= 0 && s.u > 0
    ensures r.u == 0 ==> LastRow(ac, r, s, x, m) == s
    ensures r.u > 0 ==>
      var p, q := HalvedRow(ac, r, x, m), HalvedRow(ac, s, x, m);
      && p.u > 0 && q.u > 0
      && Minus(ac, p, q).u == p.u - q.u && Minus(ac, q, p).u == q.u - p.u
      && (p.u >= q.u ==> LastRow(ac, r, s, x, m) == LastRow(ac, Minus(ac, p, q), q, x, m))
      && (p.u < q.u ==> LastRow(ac, r, s, x, m) == LastRow(ac, p, Minus(ac, q, p), x, m))
  {}

  /** One turn of an inner loop on the coefficients. */
  method HalveCoefficients(a: BigInteger, b: BigInteger, x: BigInteger, m: BigInteger, ac: bool, ghost u: int)
    requires a.Normal() && b.Normal() && x.Normal() && m.Normal() && a != b && a != x && a != m && b != x && b != m
    requires Operands(ac, x.Value(), m.Value()) && u % 2 == 0
    requires Combination(ac, a.Value(), b.Value(), x.Value(), m.Value(), u)
    modifies a, b
    ensures a.Normal() && b.Normal()
    ensures Combination(ac, a.Value(), b.Value(), x.Value(), m.Value(), u / 2)
    ensures Row(u / 2, a.Value(), b.Value()) == HalvedOnce(ac, Row(u, old(a.Value()), old(b.Value())), x.Value(), m.Value())
  {
    hide Combination;
    if ac {
      HalveExactly(a, b, x, m, u);
    } else {
      HalveModulo(b, x, m, a.Value(), u);
    }
  }

  method HalveExactly(a: BigInteger, b: BigInteger, x: BigInteger, m: BigInteger, ghost u: int)
    requires a.Normal() && b.Normal() && x.Normal() && m.Normal() && a != b && a != x && a != m && b != x && b != m
    requires Operands(true, x.Value(), m.Value()) && u % 2 == 0
    requires Combination(true, a.Value(), b.Value(), x.Value(), m.Value(), u)
    modifies a, b
    ensures a.Normal() && b.Normal()
    ensures Combination(true, a.Value(), b.Value(), x.Value(), m.Value(), u / 2)
    ensures Row(u / 2, a.Value(), b.Value()) == HalvedOnce(true, Row(u, old(a.Value()), old(b.Value())), x.Value(), m.Value())
  {
    ghost var xv, mv := x.Value(), m.Value();
    AdjustedExact(a.Value(), b.Value(), xv, mv, u);
    hide ValueOf;
    hide Combination;
    var evenA := IsEven(a);
    var evenB := IsEven(b);
    if !evenA || !evenB {
      a.AddTo(x, a);
      b.SubTo(m, b);
    }
    HalvedExact(a.Value(), b.Value(), xv, mv, u);
    Half(a);
    Half(b);
  }

  method HalveModulo(b: BigInteger, x: BigInteger, m: BigInteger, ghost a: int, ghost u: int)
    requires b.Normal() && x.Normal() && m.Normal() && b != x && b != m
    requires Operands(false, x.Value(), m.Value()) && u % 2 == 0
    requires Combination(false, a, b.Value(), x.Value(), m.Value(), u)
    modifies b
    ensures b.Normal() && Combination(false, a, b.Value(), x.Value(), m.Value(), u / 2)
    ensures Row(u / 2, a, b.Value()) == HalvedOnce(false, Row(u, a, old(b.Value())), x.Value(), m.Value())
  {
    ghost var xv, mv := x.Value(), m.Value();
    AdjustedCong(a, b.Value(), xv, mv, u);
    hide ValueOf;
    hide Combination;
    hide Operands;
    var evenB := IsEven(b);
    if !evenB {
      b.SubTo(m, b);
    }
    HalvedCong(a, b.Value(), xv, mv, u);
    Half(b);
  }

  /** `x.rShiftTo(1,x)` */
  method Half(x: BigInteger)
    requires x.Valid()
    modifies x
    ensures x.Normal() && x.Value() == old(x.Value()) / 2
  {
    HalfShift(x.Value());
    RShiftTo(x, 1, x);
  }

  /** An inner loop of `bnModInverse`: `u` loses its factors of two. */
  method HalveWhileEven(u: BigInteger, a: BigInteger, b: BigInteger, x: BigInteger, m: BigInteger, ac: bool,
                        ghost y: int)
    requires u.Normal() && a.Normal() && b.Normal() && x.Normal() && m.Normal()
    requires a != b && a != x && a != m && b != x && b != m && u != a && u != b && u != x && u != m
    requires Operands(ac, x.Value(), m.Value()) && u.Value() > 0
    requires Combination(ac, a.Value(), b.Value(), x.Value(), m.Value(), u.Value())
    requires Reduced(1, u.Value(), y, m.Value(), x.Value())
    modifies u, a, b
    ensures u.Normal() && a.Normal() && b.Normal() && u.Value() > 0 && u.Value() % 2 == 1
    ensures u.Value() <= old(u.Value())
    ensures Combination(ac, a.Value(), b.Value(), x.Value(), m.Value(), u.Value())
    ensures Reduced(1, u.Value(), y, m.Value(), x.Value())
    ensures RowOf(u, a, b) == HalvedRow(ac, old(RowOf(u, a, b)), x.Value(), m.Value())
  {
    ghost var xv, mv, start := x.Value(), m.Value(), u.Value();
    hide ValueOf;
    hide Combination;
    hide Operands;
    hide SameDivisors;
    ghost var goal := HalvedRow(ac, RowOf(u, a, b), xv, mv);
    hide HalvedRow;
    hide HalvedOnce;
    var even := IsEven(u);
    while even
      invariant u.Normal() && a.Normal() && b.Normal() && 0 < u.Value() <= start && (even <==> u.Value() % 2 == 0)
      invariant Combination(ac, a.Value(), b.Value(), xv, mv, u.Value())
      invariant Reduced(1, u.Value(), y, mv, xv)
      invariant HalvedRow(ac, RowOf(u, a, b), xv, mv) == goal
      decreases u.Value()
    {
      ghost var w := u.Value();
      HalvedNext(ac, RowOf(u, a, b), xv, mv);
      HalfShift(w);
      Half(u);
      ReducedDropX(1, w / 2, 1, y, mv, xv);
      HalveCoefficients(a, b, x, m, ac, w);
      even := IsEven(u);
    }
    HalvedNext(ac, RowOf(u, a, b), xv, mv);
  }

  ghost predicate Normal3(u: BigInteger, a: BigInteger, b: BigInteger)
    reads u, a, b
  {
    u.Normal() && a.Normal() && b.Normal()
  }

  /** One equation: `u` with its coefficients `a` and `b`. */
  ghost predicate Equation(ac: bool, u: BigInteger, a: BigInteger, b: BigInteger, x: int, m: int)
    reads u, a, b
  {
    Normal3(u, a, b) && Combination(ac, a.Value(), b.Value(), x, m, u.Value())
  }

  ghost predicate Distinct3(u: BigInteger, a: BigInteger, b: BigInteger, x: BigInteger, m: BigInteger) {
    u != a && u != b && a != b && u != x && a != x && b != x && u != m && a != m && b != m
  }

  /** The lines that subtract one equation from the other. */
  method SubtractEquation(u: BigInteger, a: BigInteger, b: BigInteger, v: BigInteger, c: BigInteger, d: BigInteger,
                          ac: bool, ghost x: int, ghost m: int)
    requires Equation(ac, u, a, b, x, m) && Equation(ac, v, c, d, x, m) && u.Value() >= v.Value()
    requires {u, a, b} !! {v, c, d} && u != a && u != b && a != b && v.Value() % 2 == 1
    requires Reduced(1, u.Value(), v.Value(), m, x)
    modifies u, a, b
    ensures Equation(ac, u, a, b, x, m) && u.Value() == old(u.Value()) - v.Value()
    ensures RowOf(u, a, b) == Minus(ac, old(RowOf(u, a, b)), RowOf(v, c, d))
    ensures Reduced(1, u.Value(), v.Value(), m, x)
  {
    Subtraction(ac, a.Value(), b.Value(), c.Value(), d.Value(), x, m, u.Value(), v.Value());
    ReducedSubtract(1, u.Value(), v.Value(), m, x);
    CoefficientUnused(ac, a.Value(), b.Value() - d.Value(), x, m, u.Value() - v.Value(), a.Value() - c.Value());
    hide ValueOf;
    hide Combination;
    hide Reduced;
    u.SubTo(v, u);
    if ac {
      a.SubTo(c, a);
    }
    b.SubTo(d, b);
  }

  lemma CoefficientUnused(ac: bool, a: int, b: int, x: int, m: int, u: int, a': int)
    requires Combination(ac, a', b, x, m, u)
    ensures !ac ==> Combination(ac, a, b, x, m, u)
  {}

  /** `HalveWhileEven` on an equation. */
  method HalveEquation(u: BigInteger, a: BigInteger, b: BigInteger, x: BigInteger, m: BigInteger, ac: bool, ghost y: int)
    requires x.Normal() && m.Normal() && Equation(ac, u, a, b, x.Value(), m.Value()) && Distinct3(u, a, b, x, m)
    requires Operands(ac, x.Value(), m.Value()) && u.Value() > 0 && Reduced(1, u.Value(), y, m.Value(), x.Value())
    modifies u, a, b
    ensures Equation(ac, u, a, b, x.Value(), m.Value()) && 0 < u.Value() <= old(u.Value()) && u.Value() % 2 == 1
    ensures Reduced(1, u.Value(), y, m.Value(), x.Value())
    ensures RowOf(u, a, b) == HalvedRow(ac, old(RowOf(u, a, b)), x.Value(), m.Value())
  {
    hide ValueOf;
    hide Combination;
    hide Operands;
    hide Reduced;
    hide HalvedRow;
    HalveWhileEven(u, a, b, x, m, ac, y);
  }

  /** One turn of the main loop. */
  method InverseStep(u: BigInteger, a: BigInteger, b: BigInteger, v: BigInteger, c: BigInteger, d: BigInteger,
                     x: BigInteger, m: BigInteger, ac: bool)
    requires x.Normal() && m.Normal()
    requires Equation(ac, u, a, b, x.Value(), m.Value()) && Equation(ac, v, c, d, x.Value(), m.Value())
    requires Distinct3(u, a, b, x, m) && Distinct3(v, c, d, x, m) && {u, a, b} !! {v, c, d}
    requires Operands(ac, x.Value(), m.Value())
    requires u.Value() > 0 && Reduced(1, u.Value(), v.Value(), m.Value(), x.Value())
    modifies u, a, b, v, c, d
    ensures Equation(ac, u, a, b, x.Value(), m.Value()) && Equation(ac, v, c, d, x.Value(), m.Value())
    ensures Reduced(1, u.Value(), v.Value(), m.Value(), x.Value())
    ensures u.Value() + v.Value() < old(u.Value() + v.Value()) && u.Value() >= 0 && v.Value() > 0
    ensures LastRow(ac, RowOf(u, a, b), RowOf(v, c, d), x.Value(), m.Value())
         == old(LastRow(ac, RowOf(u, a, b), RowOf(v, c, d), x.Value(), m.Value()))
  {
    ghost var xv, mv := x.Value(), m.Value();
    LastNext(ac, RowOf(u, a, b), RowOf(v, c, d), xv, mv);
    hide LastRow;
    hide HalvedRow;
    hide Minus;
    hide ValueOf;
    hide Combination;
    hide Operands;
    hide SameDivisors;
    HalveEquation(u, a, b, x, m, ac, v.Value());
    ReducedSwap(1, u.Value(), v.Value(), mv, xv);
    HalveEquation(v, c, d, x, m, ac, u.Value());
    var below := Less(u, v);
    if !below {
      ReducedSwap(1, v.Value(), u.Value(), mv, xv);
      SubtractEquation(u, a, b, v, c, d, ac, xv, mv);
    } else {
      SubtractEquation(v, c, d, u, a, b, ac, xv, mv);
      ReducedSwap(1, v.Value(), u.Value(), mv, xv);
    }
  }

  /** The main loop: at the end `v` is the greatest common divisor. */
  method InverseLoop(u: BigInteger, a: BigInteger, b: BigInteger, v: BigInteger, c: BigInteger, d: BigInteger,
                     x: BigInteger, m: BigInteger, ac: bool)
    requires x.Normal() && m.Normal()
    requires Equation(ac, u, a, b, x.Value(), m.Value()) && Equation(ac, v, c, d, x.Value(), m.Value())
    requires Distinct3(u, a, b, x, m) && Distinct3(v, c, d, x, m) && {u, a, b} !! {v, c, d}
    requires Operands(ac, x.Value(), m.Value())
    requires Reduced(1, u.Value(), v.Value(), m.Value(), x.Value())
    modifies u, a, b, v, c, d
    ensures Equation(ac, v, c, d, x.Value(), m.Value()) && IsGcd(v.Value(), m.Value(), x.Value())
    ensures RowOf(v, c, d) == old(LastRow(ac, RowOf(u, a, b), RowOf(v, c, d), x.Value(), m.Value()))
  {
    ghost var xv, mv := x.Value(), m.Value();
    hide ValueOf;
    hide Combination;
    hide Operands;
    hide SameDivisors;
    hide IsGcd;
    hide LastRow;
    ghost var goal := LastRow(ac, RowOf(u, a, b), RowOf(v, c, d), xv, mv);
    var sign := SigNum(u);
    while sign != 0
      invariant Equation(ac, u, a, b, xv, mv) && Equation(ac, v, c, d, xv, mv)
      invariant Reduced(1, u.Value(), v.Value(), mv, xv) && (sign == 0 <==> u.Value() == 0)
      invariant LastRow(ac, RowOf(u, a, b), RowOf(v, c, d), xv, mv) == goal
      decreases u.Value() + v.Value()
    {
      InverseStep(u, a, b, v, c, d, x, m, ac);
      sign := SigNum(u);
    }
    LastNext(ac, RowOf(u, a, b), RowOf(v, c, d), xv, mv);
    Gcd.ReducedEnd(1, v.Value(), mv, xv);
    MulUnit(v.Value());
  }

  lemma Starting(x: int, m: int, ac: bool)
    requires Operands(ac, x, m)
    ensures Combination(ac, 1, 0, x, m, m) && Combination(ac, 0, 1, x, m, x) && Reduced(1, m, x, m, x)
  {
    MulUnit(m);
    MulUnit(x);
    if !ac {
      CongRefl(x, m);
      hide Mul;
      CongIntro(0, m, -1, m);
    }
  }

  lemma InverseFound(ac: bool, c: int, d: int, x: int, m: int)
    requires m > 0 && Combination(ac, c, d, x, m, 1)
    ensures Cong(Mul(d, x), 1, m)
  {
    if ac {
      MulNeg(c, m);
      hide Mul;
      CongIntro(Mul(d, x), 1, -c, m);
    }
  }

  lemma InverseShifted(d: int, x: int, m: int)
    requires Cong(Mul(d, x), 1, m)
    ensures Cong(Mul(d + m, x), 1, m) && Cong(Mul(d - m, x), 1, m)
  {
    MulAdd(d, m, x);
    MulSub(d, m, x);
    MulComm(m, x);
    MulNeg(x, m);
    hide Mul;
    CongIntro(Mul(d + m, x), Mul(d, x), x, m);
    CongIntro(Mul(d - m, x), Mul(d, x), -x, m);
    CongTrans(Mul(d + m, x), Mul(d, x), 1, m);
    CongTrans(Mul(d - m, x), Mul(d, x), 1, m);
  }

  /** Two even numbers, or zero for the modulus, have no inverse to find. */
  lemma NoInverse(x: int, m: int)
    requires x % 2 == 0 && m % 2 == 0
    ensures !IsGcd(1, x, m)
  {
    assert Divides(2, x) && Divides(2, m) && !Divides(2, 1);
  }

  lemma GcdUnique(g: int, h: int, x: int, m: int)
    requires IsGcd(g, m, x) && IsGcd(h, x, m) && g > 0 && h > 0
    ensures g == h
  {
    DividesSelf(g);
    DividesSelf(h);
    DivisorBound(g, h);
    DivisorBound(h, g);
  }

  /** The routine answers without its loops: both numbers even, or no modulus. */
  ghost predicate Refused(x: int, m: int) {
    (x % 2 == 0 && m % 2 == 0) || m == 0
  }

  /** crypto.js `bnModInverse`, for a positive number and modulus or where it answers at once.  What it finds is an
      inverse, but a residue only where the coefficient is not too far below 0. */
  method Inverse(x: BigInteger, m: BigInteger) returns (r: BigInteger)
    requires x.Normal() && m.Normal() && (Refused(x.Value(), m.Value()) || (x.Value() > 0 && m.Value() > 0))
    ensures r.Normal()
    ensures m.Value() > 0 && IsGcd(1, x.Value(), m.Value()) ==> Cong(Mul(r.Value(), x.Value()), 1, m.Value())
    ensures Refused(x.Value(), m.Value()) || !IsGcd(1, x.Value(), m.Value()) ==> r.Value() == 0
    ensures m.Value() > 0 && IsGcd(1, x.Value(), m.Value()) ==>
      && x.Value() > 0 && r.Value() == Adjusted(Coefficient(x.Value(), m.Value()), m.Value())
      && (0 <= r.Value() < m.Value() <==> -2 * m.Value() <= Coefficient(x.Value(), m.Value()) < 2 * m.Value())
  {
    ghost var xv, mv := x.Value(), m.Value();
    hide ValueOf;
    hide IsGcd;
    hide Cong;
    hide Mul;
    hide Coefficient;
    var ac := IsEven(m);
    var evenX := IsEven(x);
    var sign := SigNum(m);
    if (evenX && ac) || sign == 0 {
      if evenX && ac {
        NoInverse(xv, mv);
      }
      r := new BigInteger();
      return;
    }
    var d, one;
    d, one := InverseUnadjusted(x, m, ac);
    if !one {
      r := new BigInteger();
      return;
    }
    r := Adjust(d, m, xv);
  }

  method NewEquation(x: BigInteger, i: int, j: int) returns (u: BigInteger, a: BigInteger, b: BigInteger)
    requires x.Normal() && 0 <= i < DV && 0 <= j < DV
    ensures fresh(u) && fresh(a) && fresh(b) && u != a && u != b && a != b && Normal3(u, a, b)
    ensures u.Value() == x.Value() && a.Value() == i && b.Value() == j
  {
    hide ValueOf;
    u := Clone(x);
    a := new BigInteger();
    a.FromInt(i);
    b := new BigInteger();
    b.FromInt(j);
  }

  method IsOne(v: BigInteger) returns (one: bool)
    requires v.Normal()
    ensures one <==> v.Value() == 1
  {
    var unit := new BigInteger();
    unit.FromInt(1);
    one := Same(v, unit);
  }

  method InverseUnadjusted(x: BigInteger, m: BigInteger, ac: bool) returns (d: BigInteger, one: bool)
    requires x.Normal() && m.Normal() && Operands(ac, x.Value(), m.Value())
    ensures fresh(d) && d.Normal() && (one <==> IsGcd(1, x.Value(), m.Value()))
    ensures one ==> Cong(Mul(d.Value(), x.Value()), 1, m.Value())
    ensures x.Value() > 0 && m.Value() > 0 && d.Value() == Coefficient(x.Value(), m.Value())
  {
    ghost var xv, mv := x.Value(), m.Value();
    Starting(xv, mv, ac);
    CoefficientIs(ac, xv, mv);
    hide LastRow;
    hide Coefficient;
    hide ValueOf;
    hide Combination;
    hide Operands;
    hide IsGcd;
    hide Cong;
    hide Mul;
    hide Reduced;
    var u, a, b := NewEquation(m, 1, 0);
    var v, c;
    v, c, d := NewEquation(x, 0, 1);
    InverseLoop(u, a, b, v, c, d, x, m, ac);
    one := IsOne(v);
    InverseDecided(ac, c.Value(), d.Value(), xv, mv, v.Value());
  }

  lemma CoefficientIs(ac: bool, x: int, m: int)
    requires Operands(ac, x, m)
    ensures x > 0 && m > 0 && Coefficient(x, m) == LastRow(ac, Row(m, 1, 0), Row(x, 0, 1), x, m).b
  {}

  lemma InverseDecided(ac: bool, c: int, d: int, x: int, m: int, v: int)
    requires Operands(ac, x, m) && Combination(ac, c, d, x, m, v) && IsGcd(v, m, x)
    ensures v == 1 <==> IsGcd(1, x, m)
    ensures v == 1 ==> Cong(Mul(d, x), 1, m)
  {
    if v == 1 {
      InverseFound(ac, c, d, x, m);
    }
    if IsGcd(1, x, m) {
      GcdPositive(v, m, x);
      GcdUnique(v, 1, x, m);
    }
  }

  lemma GcdPositive(v: int, m: int, x: int)
    requires IsGcd(v, m, x) && m > 0
    ensures v > 0
  {
    if v == 0 {
      var d := m + 1;
      MulUnit(d);
      FloorDiv(m, d, 0, m);
      FloorDiv(0, d, 0, 0);
      assert Divides(d, 0) && !Divides(d, m);
    }
  }

  /** Where the last lines put the coefficient. */
  ghost function Adjusted(d: int, m: int): int {
    if d >= m then d - m else if d >= 0 then d else if d + m >= 0 then d + m else d + 2 * m
  }

  /** `d.compareTo(m) < 0` */
  method Below(d: BigInteger, m: BigInteger) returns (less: bool)
    requires d.Normal() && m.Normal() && m.Value() > 0
    ensures less <==> d.Value() < m.Value()
  {
    var c := d.CompareTo(m);
    less := c < 0;
    Compare.Bounds(d.arr, d.t, d.s);
    Compare.Bounds(m.arr, m.t, m.s);
    Compare.CompareOrders(d.arr, d.t, d.s, m.arr, m.t, m.s);
  }

  /** The last lines of `bnModInverse` move `d` by multiples of m. */
  method Adjust(d: BigInteger, m: BigInteger, ghost x: int) returns (r: BigInteger)
    requires d.Normal() && m.Normal() && d != m && Cong(Mul(d.Value(), x), 1, m.Value()) && m.Value() > 0
    modifies d
    ensures r.Normal() && Cong(Mul(r.Value(), x), 1, m.Value()) && r.Value() == Adjusted(old(d.Value()), m.Value())
  {
    InverseShifted(d.Value(), x, m.Value());
    hide ValueOf;
    hide Cong;
    hide Mul;
    var less := Below(d, m);
    if !less {
      r := Subtract(d, m);
      return;
    }
    var sign := SigNum(d);
    if sign >= 0 {
      return d;
    }
    d.AddTo(m, d);
    sign := SigNum(d);
    if sign >= 0 {
      return d;
    }
    InverseShifted(d.Value(), x, m.Value());
    r := new BigInteger();
    d.AddTo(m, r);
  }

  // ---- where the result is not a residue

  lemma FirstTurns(x: int, m: int)
    requires x == 1748 && m == 3659
    ensures LastRow(false, Row(m, 1, 0), Row(x, 0, 1), x, m) == LastRow(false, Row(75, 1, 2401), Row(106, 0, -6803), x, m)
  {
    hide HalvedRow;
    hide LastRow;
    HalvedNext(false, Row(3659, 1, 0), x, m);
    HalvedNext(false, Row(437, 0, -2744), x, m);
    HalvedNext(false, Row(874, 0, -1829), x, m);
    HalvedNext(false, Row(1748, 0, 1), x, m);
    LastNext(false, Row(3659, 1, 0), Row(1748, 0, 1), x, m);
    HalvedNext(false, Row(1611, 1, 1372), x, m);
    HalvedNext(false, Row(3222, 1, 2744), x, m);
    LastNext(false, Row(3222, 1, 2744), Row(437, 0, -2744), x, m);
    HalvedNext(false, Row(587, 1, 2058), x, m);
    HalvedNext(false, Row(1174, 1, 4116), x, m);
    LastNext(false, Row(1174, 1, 4116), Row(437, 0, -2744), x, m);
    HalvedNext(false, Row(75, 1, 2401), x, m);
    HalvedNext(false, Row(150, 1, 4802), x, m);
    LastNext(false, Row(150, 1, 4802), Row(437, 0, -2744), x, m);
    HalvedNext(false, Row(181, 0, -4402), x, m);
    HalvedNext(false, Row(362, 0, -5145), x, m);
    LastNext(false, Row(75, 1, 2401), Row(362, 0, -5145), x, m);
  }

  lemma LaterTurns(x: int, m: int)
    requires x == 1748 && m == 3659
    ensures LastRow(false, Row(75, 1, 2401), Row(106, 0, -6803), x, m).b == -7969
  {
    hide HalvedRow;
    hide LastRow;
    HalvedNext(false, Row(75, 1, 2401), x, m);
    HalvedNext(false, Row(53, 0, -5231), x, m);
    HalvedNext(false, Row(106, 0, -6803), x, m);
    LastNext(false, Row(75, 1, 2401), Row(106, 0, -6803), x, m);
    HalvedNext(false, Row(11, 1, 3816), x, m);
    HalvedNext(false, Row(22, 1, 7632), x, m);
    LastNext(false, Row(22, 1, 7632), Row(53, 0, -5231), x, m);
    HalvedNext(false, Row(21, 0, -6353), x, m);
    HalvedNext(false, Row(42, 0, -9047), x, m);
    LastNext(false, Row(11, 1, 3816), Row(42, 0, -9047), x, m);
    HalvedNext(false, Row(5, 0, -6914), x, m);
    HalvedNext(false, Row(10, 0, -10169), x, m);
    LastNext(false, Row(11, 1, 3816), Row(10, 0, -10169), x, m);
    HalvedNext(false, Row(3, 1, 5365), x, m);
    HalvedNext(false, Row(6, 1, 10730), x, m);
    LastNext(false, Row(6, 1, 10730), Row(5, 0, -6914), x, m);
    HalvedNext(false, Row(1, 0, -7969), x, m);
    HalvedNext(false, Row(2, 0, -12279), x, m);
    LastNext(false, Row(3, 1, 5365), Row(2, 0, -12279), x, m);
    HalvedNext(false, Row(1, 1, 6667), x, m);
    HalvedNext(false, Row(2, 1, 13334), x, m);
    LastNext(false, Row(2, 1, 13334), Row(1, 0, -7969), x, m);
    LastNext(false, Row(0, 1, 14636), Row(1, 0, -7969), x, m);
  }

  /** At an input: the inverse of 1748 modulo 3659 comes out as -651. */
  lemma NegativeInverse()
    ensures Coefficient(1748, 3659) == -7969 && Adjusted(Coefficient(1748, 3659), 3659) == -651
  {
    hide LastRow;
    FirstTurns(1748, 3659);
    LaterTurns(1748, 3659);
  }

  // ---- where the loops do not end

  ghost predicate Opposite(u: int, v: int) {
    u < 0 < v || v < 0 < u
  }

  /** What an inner loop leaves of a number that is not 0. */
  ghost function OddPart(u: int): (r: int)
    requires u != 0
    ensures r % 2 == 1 && (u > 0 <==> r > 0)
    decreases if u < 0 then -u else u
  {
    if u % 2 == 0 then OddPart(u / 2) else u
  }

  /** `u` and `v` after `n` turns of the main loop. */
  ghost function Turns(u: int, v: int, n: nat): (r: (int, int))
    requires Opposite(u, v)
    ensures Opposite(r.0, r.1)
    decreases n
  {
    if n == 0 then (u, v)
    else
      var p, q := OddPart(u), OddPart(v);
      if p >= q then Turns(p - q, q, n - 1) else Turns(p, q - p, n - 1)
  }

  /** Numbers of opposite signs keep them: `u`, which begins as the modulus, is never 0, and the main loop does not
      end. */
  lemma OppositeSignsGoOn(x: int, m: int, n: nat)
    requires Opposite(m, x)
    ensures Turns(m, x, n).0 != 0
  {}

  /** `v` after `n` turns of its inner loop. */
  ghost function HalvedTimes(v: int, n: nat): int {
    if n == 0 then v else HalvedTimes(v, n - 1) / 2
  }

  /** Zero stays even however often it is halved: with an odd modulus its inner loop does not end.  A number that is
      not 0 is odd after finitely many. */
  lemma {:induction false} HalvingEnds(v: int)
    ensures (exists n: nat :: HalvedTimes(v, n) % 2 == 1) <==> v != 0
    decreases if v < 0 then -v else v
  {
    if v == 0 {
      forall n: nat
        ensures HalvedTimes(v, n) % 2 != 1
      {
        ZeroHalved(n);
      }
    } else if v % 2 == 1 {
      assert HalvedTimes(v, 0) == v;
    } else {
      HalvingEnds(v / 2);
      var n: nat :| HalvedTimes(v / 2, n) % 2 == 1;
      HalvedFirst(v, n);
    }
  }

  lemma {:induction false} ZeroHalved(n: nat)
    ensures HalvedTimes(0, n) == 0
  {
    if n > 0 {
      ZeroHalved(n - 1);
    }
  }

  lemma {:induction false} HalvedFirst(v: int, n: nat)
    ensures HalvedTimes(v, n + 1) == HalvedTimes(v / 2, n)
  {
    if n > 0 {
      HalvedFirst(v, n - 1);
    }
  }
}
