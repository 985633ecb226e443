/** The binary greatest common divisor and the modular inverse. */
module Gcd {
  import opened JsNumber
  import opened Digits
  import opened BigIntegers
  import opened Shifts
  import opened Multiply
  import opened Congruence
  import opened Reductions
  import opened Montgomery
  import opened Exponents
  import opened Windows
  import opened NumberTheory
  import opened Primality
  import opened Rsa
  import Compare

  /** The common divisors of `x` and `y` are those of `a` and `b`. */
  ghost predicate SameDivisors(x: int, y: int, a: int, b: int) {
    forall d | d > 0 :: Divides(d, x) && Divides(d, y) <==> Divides(d, a) && Divides(d, b)
  }

  /** The divisors of `g` are the common divisors of `a` and `b`. */
  ghost predicate IsGcd(g: int, a: int, b: int) {
    g >= 0 && SameDivisors(g, g, a, b)
  }

  lemma DividesCombination(d: int, a: int, b: int, s: int, t: int)
    requires d > 0 && Divides(d, a) && Divides(d, b)
    ensures Divides(d, Mul(a, s) - Mul(b, t)) && Divides(d, Mul(a, s) + Mul(b, t))
  {
    DividesCong(d, a);
    DividesCong(d, b);
    hide Mod;
    hide Divides;
    hide Mul;
    CongRefl(s, d);
    CongRefl(t, d);
    CongMul(a, 0, s, s, d);
    CongMul(b, 0, t, t, d);
    MulUnit(s);
    MulUnit(t);
    CongAdd(Mul(a, s), 0, Mul(b, t), 0, d);
    DividesCong(d, Mul(a, s) - Mul(b, t));
    DividesCong(d, Mul(a, s) + Mul(b, t));
  }

  lemma HalfAlgebra(k: int, x: int, y: int)
    requires y % 2 == 1
    ensures Mul(k, x) == Mul(Mul(k, y), x) - Mul(Mul(k, 2 * x), y / 2)
    ensures Mul(k, 2 * x) == Mul(Mul(k, x), 2) + Mul(Mul(k, y), 0)
  {
    var w := y / 2;
    assert y == 2 * w + 1;
    assert (k * (2 * w + 1)) * x == (k * (2 * x)) * w + k * x;
    assert k * (2 * x) == (k * x) * 2;
  }

  /** Next to an odd number a factor 2 is in no common divisor. */
  lemma Halved(k: int, x: int, y: int)
    requires y % 2 == 1
    ensures SameDivisors(Mul(k, x), Mul(k, y), Mul(k, 2 * x), Mul(k, y))
  {
    HalfAlgebra(k, x, y);
    hide Mul;
    forall d | d > 0
      ensures Divides(d, Mul(k, x)) && Divides(d, Mul(k, y)) <==> Divides(d, Mul(k, 2 * x)) && Divides(d, Mul(k, y))
    {
      if Divides(d, Mul(k, y)) {
        if Divides(d, Mul(k, x)) {
          DividesCombination(d, Mul(k, x), Mul(k, y), 2, 0);
        }
        if Divides(d, Mul(k, 2 * x)) {
          DividesCombination(d, Mul(k, y), Mul(k, 2 * x), x, y / 2);
        }
      }
    }
  }

  lemma {:induction false} ShiftedOut(k: int, x: int, y: int, i: nat)
    requires y % 2 == 1
    ensures SameDivisors(Mul(k, x), Mul(k, y), Mul(k, Mul(x, Pow2(i))), Mul(k, y))
  {
    if i == 0 {
      MulUnit(x);
    } else {
      ShiftedOut(k, x, y, i - 1);
      Halved(k, Mul(x, Pow2(i - 1)), y);
      MulConst(2, x, Pow2(i - 1));
    }
  }

  /** A difference has the common divisors of its parts. */
  lemma Subtracted(k: int, x: int, y: int)
    ensures SameDivisors(Mul(k, x - y), Mul(k, y), Mul(k, x), Mul(k, y))
  {
    MulSub(x, y, k);
    MulUnit(Mul(k, x));
    MulUnit(Mul(k, y));
    MulUnit(Mul(k, x - y));
    hide Mul;
    forall d | d > 0
      ensures Divides(d, Mul(k, x - y)) && Divides(d, Mul(k, y)) <==> Divides(d, Mul(k, x)) && Divides(d, Mul(k, y))
    {
      if Divides(d, Mul(k, y)) {
        if Divides(d, Mul(k, x)) {
          DividesCombination(d, Mul(k, x), Mul(k, y), 1, 1);
        }
        if Divides(d, Mul(k, x - y)) {
          DividesCombination(d, Mul(k, x - y), Mul(k, y), 1, 1);
        }
      }
    }
  }

  lemma SameDivisorsTrans(x: int, y: int, a: int, b: int, m: int, n: int)
    requires SameDivisors(x, y, a, b) && SameDivisors(a, b, m, n)
    ensures SameDivisors(x, y, m, n) && SameDivisors(y, x, m, n)
  {}

  /** What both loops keep: one of the two numbers is odd, and scaled by `k` they have the common
      divisors of the operands. */
  ghost predicate Reduced(k: int, x: int, y: int, a: int, b: int) {
    x >= 0 && y > 0 && (x % 2 == 1 || y % 2 == 1) && SameDivisors(Mul(k, x), Mul(k, y), a, b)
  }

  lemma ReducedDropX(k: int, x: int, i: nat, y: int, a: int, b: int)
    requires Reduced(k, Mul(x, Pow2(i)), y, a, b) && x >= 0 && (i > 0 ==> y % 2 == 1)
    ensures Reduced(k, x, y, a, b)
  {
    if i > 0 {
      ShiftedOut(k, x, y, i);
      SameDivisorsTrans(Mul(k, x), Mul(k, y), Mul(k, Mul(x, Pow2(i))), Mul(k, y), a, b);
    } else {
      MulUnit(x);
    }
  }

  lemma ReducedSwap(k: int, x: int, y: int, a: int, b: int)
    requires Reduced(k, x, y, a, b) && x > 0
    ensures Reduced(k, y, x, a, b)
  {}

  lemma ReducedSubtract(k: int, x: int, y: int, a: int, b: int)
    requires Reduced(k, x, y, a, b) && x >= y && y % 2 == 1
    ensures Reduced(k, x - y, y, a, b)
  {
    Subtracted(k, x, y);
    SameDivisorsTrans(Mul(k, x - y), Mul(k, y), Mul(k, x), Mul(k, y), a, b);
  }

  lemma ReducedEnd(k: int, y: int, a: int, b: int)
    requires Reduced(k, 0, y, a, b) && k > 0
    ensures IsGcd(Mul(k, y), a, b)
  {
    MulLess(0, k, y);
    MulUnit(y);
    MulUnit(k);
    forall d | d > 0
      ensures Divides(d, 0)
    {
      DividesCong(d, 0);
      CongRefl(0, d);
    }
  }

  /** The greatest common divisor is the greatest. */
  lemma GcdGreatest(g: int, a: int, b: int, d: int)
    requires IsGcd(g, a, b) && g > 0 && d > 0
    ensures Divides(g, a) && Divides(g, b)
    ensures Divides(d, a) && Divides(d, b) ==> Divides(d, g) && d <= g
  {
    DividesSelf(g);
    if Divides(d, a) && Divides(d, b) {
      DivisorBound(d, g);
    }
  }

  lemma DivisorBound(d: int, g: int)
    requires d > 0 && g > 0 && Divides(d, g)
    ensures d <= g
  {}

  /** crypto.js `bnSigNum` */
  method SigNum(x: BigInteger) returns (r: int)
    requires x.Normal()
    ensures r == if x.Value() < 0 then -1 else if x.Value() == 0 then 0 else 1
  {
    Compare.Bounds(x.arr, x.t, x.s);
    if x.s < 0 {
      r := -1;
    } else if x.t <= 0 || (x.t == 1 && x.arr[0] <= 0) {
      r := 0;
    } else {
      r := 1;
    }
  }

  /** crypto.js `bnClone` */
  method Clone(x: BigInteger) returns (r: BigInteger)
    requires x.Normal()
    ensures fresh(r) && r.Normal() && r.Value() == x.Value()
  {
    r := new BigInteger();
    x.CopyTo(r);
  }

  /** The absolute value in a number of its own. */
  method OwnAbs(x: BigInteger) returns (r: BigInteger)
    requires x.Normal()
    ensures fresh(r) && r.Normal() && r.Value() == (if x.Value() < 0 then -x.Value() else x.Value())
  {
    Compare.Bounds(x.arr, x.t, x.s);
    hide ValueOf;
    if x.s < 0 {
      r := Negate(x);
    } else {
      r := Clone(x);
    }
  }

  lemma ShiftExact(v: int, k: nat)
    requires LowestBit(v, k)
    ensures v == Mul(Div(v, Pow2(k)), Pow2(k)) && Div(v, Pow2(k)) % 2 == 1
  {
    var o :| v == Mul(o, Pow2(k)) && o % 2 == 1;
    FloorDiv(v, Pow2(k), o, 0);
  }

  lemma ShiftPart(v: int, k: nat, g: nat)
    requires LowestBit(v, k) && g <= k
    ensures v == Mul(Div(v, Pow2(g)), Pow2(g)) && (g == k ==> Div(v, Pow2(g)) % 2 == 1)
  {
    var o :| v == Mul(o, Pow2(k)) && o % 2 == 1;
    Pow2Add(k - g, g);
    MulAssoc(o, Pow2(k - g), Pow2(g));
    FloorDiv(v, Pow2(g), Mul(o, Pow2(k - g)), 0);
    if g == k {
      MulUnit(o);
    }
  }

  /** `if((i = x.getLowestSetBit()) > 0) x.rShiftTo(i,x)` */
  method DropZeroBits(x: BigInteger) returns (ghost i: nat)
    requires x.Normal() && x.Value() > 0
    modifies x
    ensures x.Normal() && x.Value() > 0 && x.Value() % 2 == 1
    ensures old(x.Value()) == Mul(x.Value(), Pow2(i)) && (i > 0 <==> old(x.Value()) % 2 == 0)
  {
    ghost var v := x.Value();
    hide ValueOf;
    var l := GetLowestSetBit(x);
    ShiftExact(v, l);
    LowestBitParity(v, l);
    PositiveFactor(Div(v, Pow2(l)), Pow2(l));
    i := l;
    hide Mul;
    hide Div;
    hide Pow2;
    if l > 0 {
      RShiftTo(x, l, x);
    } else {
      ShiftNone(v);
    }
  }

  lemma ShiftNone(v: int)
    ensures Div(v, Pow2(0)) == v
  {}

  lemma PositiveFactor(q: int, p: int)
    requires Mul(q, p) > 0 && p > 0
    ensures q > 0
  {
    if q <= 0 {
      MulLe(q, 0, p);
    }
  }

  lemma GcdSigns(r: int, x: int, y: int, a: int, b: int)
    requires IsGcd(r, x, y)
    requires (x == AbsOf(a) && y == AbsOf(b)) || (x == AbsOf(b) && y == AbsOf(a))
    ensures IsGcd(r, a, b)
  {
    forall d | d > 0
      ensures Divides(d, AbsOf(a)) <==> Divides(d, a)
      ensures Divides(d, AbsOf(b)) <==> Divides(d, b)
    {
      DividesNegated(d, a);
      DividesNegated(d, b);
    }
  }

  ghost function AbsOf(v: int): int {
    if v < 0 then -v else v
  }

  lemma DividesNegated(d: int, v: int)
    requires d > 0
    ensures Divides(d, v) <==> Divides(d, -v)
  {
    if Divides(d, v) {
      DividesCombination(d, v, v, -1, 0);
      MulUnit(v);
    }
    if Divides(d, -v) {
      DividesCombination(d, -v, -v, -1, 0);
      MulUnit(-v);
    }
  }

  lemma GcdZero(x: int)
    requires x >= 0
    ensures IsGcd(x, x, 0)
  {
    forall d | d > 0
      ensures Divides(d, 0)
    {
      DividesCong(d, 0);
      CongRefl(0, d);
    }
  }

  /** crypto.js `bnGCD` */
  method GreatestCommonDivisor(x0: BigInteger, a0: BigInteger) returns (r: BigInteger)
    requires x0.Normal() && a0.Normal()
    ensures fresh(r) && r.Normal() && IsGcd(r.Value(), x0.Value(), a0.Value())
  {
    hide ValueOf;
    hide IsGcd;
    var x := OwnAbs(x0);
    var y := OwnAbs(a0);
    var below := Less(x, y);
    if below {
      x, y := y, x;
    }
    ghost var xv, yv := x.Value(), y.Value();
    r := GcdOfNaturals(x, y);
    GcdSigns(r.Value(), xv, yv, x0.Value(), a0.Value());
  }

  method GcdOfNaturals(x: BigInteger, y: BigInteger) returns (r: BigInteger)
    requires x.Normal() && y.Normal() && x != y && x.Value() >= y.Value() >= 0
    modifies x, y
    ensures (r == x || r == y) && r.Normal() && IsGcd(r.Value(), old(x.Value()), old(y.Value()))
  {
    ghost var a, b := x.Value(), y.Value();
    GcdZero(a);
    hide ValueOf;
    hide IsGcd;
    hide LowestBit;
    hide Div;
    hide Mul;
    hide Pow2;
    hide Reduced;
    var i := GetLowestSetBit(x);
    var g := GetLowestSetBit(y);
    if g < 0 {
      return x;
    }
    ghost var j := g;
    if i < g {
      g := i;
    }
    ReducedStart(a, b, i, j, g);
    if g > 0 {
      RShiftTo(x, g, x);
      RShiftTo(y, g, y);
    } else {
      ShiftNone(a);
      ShiftNone(b);
    }
    GcdLoop(x, y, Pow2(g), a, b);
    if g > 0 {
      LShiftTo(y, g, y);
    }
    r := y;
  }

  lemma ReducedStart(a: int, b: int, i: nat, j: nat, g: nat)
    requires a >= b > 0 && LowestBit(a, i) && LowestBit(b, j) && g == if i < j then i else j
    ensures Reduced(Pow2(g), Div(a, Pow2(g)), Div(b, Pow2(g)), a, b) && Div(a, Pow2(g)) > 0
    ensures g == 0 ==> Pow2(g) == 1
  {
    ShiftPart(a, i, g);
    ShiftPart(b, j, g);
    PositiveFactor(Div(a, Pow2(g)), Pow2(g));
    PositiveFactor(Div(b, Pow2(g)), Pow2(g));
    MulComm(Pow2(g), Div(a, Pow2(g)));
    MulComm(Pow2(g), Div(b, Pow2(g)));
  }

  /** The loop of `bnGCD`; `k` is the power of two taken out of both numbers before. */
  method GcdLoop(x: BigInteger, y: BigInteger, ghost k: int, ghost a: int, ghost b: int)
    requires x.Normal() && y.Normal() && x != y && k > 0 && x.Value() > 0
    requires Reduced(k, x.Value(), y.Value(), a, b)
    modifies x, y
    ensures y.Normal() && IsGcd(Mul(y.Value(), k), a, b) && y.Value() > 0
  {
    hide ValueOf;
    hide Div;
    hide Mul;
    hide Pow2;
    hide IsGcd;
    hide SameDivisors;
    var sign := SigNum(x);
    while sign > 0
      invariant x.Normal() && y.Normal() && Reduced(k, x.Value(), y.Value(), a, b)
      invariant sign > 0 <==> x.Value() > 0
      decreases x.Value() + y.Value()
    {
      GcdStep(x, y, k, a, b);
      sign := SigNum(x);
    }
    MulComm(k, y.Value());
    ReducedEnd(k, y.Value(), a, b);
  }

  method GcdStep(x: BigInteger, y: BigInteger, ghost k: int, ghost a: int, ghost b: int)
    requires x.Normal() && y.Normal() && x != y && x.Value() > 0 && Reduced(k, x.Value(), y.Value(), a, b)
    modifies x, y
    ensures x.Normal() && y.Normal() && Reduced(k, x.Value(), y.Value(), a, b)
    ensures x.Value() + y.Value() < old(x.Value() + y.Value())
  {
    hide ValueOf;
    hide Div;
    hide Mul;
    hide Pow2;
    hide SameDivisors;
    var i := DropZeroBits(x);
    ReducedDropX(k, x.Value(), i, y.Value(), a, b);
    SmallerFactor(x.Value(), i);
    ReducedSwap(k, x.Value(), y.Value(), a, b);
    var j := DropZeroBits(y);
    ReducedDropX(k, y.Value(), j, x.Value(), a, b);
    SmallerFactor(y.Value(), j);
    ReducedSwap(k, y.Value(), x.Value(), a, b);
    var below := Less(x, y);
    if !below {
      SubtractAndHalve(x, y, k, a, b);
    } else {
      ReducedSwap(k, x.Value(), y.Value(), a, b);
      SubtractAndHalve(y, x, k, a, b);
      ReducedSwap(k, y.Value(), x.Value(), a, b);
    }
  }

  /** `x.subTo(y,x); x.rShiftTo(1,x)` for odd x and y. */
  method SubtractAndHalve(x: BigInteger, y: BigInteger, ghost k: int, ghost a: int, ghost b: int)
    requires x.Normal() && y.Normal() && x != y && x.Value() >= y.Value()
    requires x.Value() % 2 == 1 && y.Value() % 2 == 1 && Reduced(k, x.Value(), y.Value(), a, b)
    modifies x
    ensures x.Normal() && x.Value() == (old(x.Value()) - y.Value()) / 2 && Reduced(k, x.Value(), y.Value(), a, b)
  {
    hide *;
    NormalIsValid(x);
    NormalIsValid(y);
    ghost var v := x.Value() - y.Value();
    ReducedSubtract(k, x.Value(), y.Value(), a, b);
    HalfShift(v);
    x.SubTo(y, x);
    NormalIsValid(x);
    RShiftTo(x, 1, x);
    NormalIsValid(x);
    ReducedDropX(k, x.Value(), 1, y.Value(), a, b);
  }

  lemma HalfShift(v: int)
    ensures Div(v, Pow2(1)) == v / 2 && (v % 2 == 0 ==> v == Mul(v / 2, Pow2(1)))
  {
    assert Pow2(1) == 2;
  }

  lemma SmallerFactor(x: int, i: nat)
    requires x > 0
    ensures x <= Mul(x, Pow2(i))
  {
    MulLe(1, Pow2(i), x);
    MulUnit(x);
  }
}
