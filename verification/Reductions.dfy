/** The operations that the exponentiation asks of any reducer, and what they keep: each number stands
    for a residue of the modulus. */
module Reductions {
  import opened JsNumber
  import opened Digits
  import opened BigIntegers
  import opened Multiply
  import opened Division
  import opened Congruence
  import opened Reducers
  import opened Montgomery
  import opened Barretts
  import Compare

  ghost predicate ValidReducer(z: Reducer)
    reads z.m, if z.Barrett? then {z.mu, z.r2, z.q3} else {}
  {
    match z
    case Classic(m) => Modulus(m)
    case Barrett(_, _, _, _) => ValidBarrett(z)
    case Montgomery(_, _, _, _, _, _) => ValidMontgomery(z)
  }

  /** The numbers that a reducer overwrites. */
  ghost function Scratch(z: Reducer): set<BigInteger> {
    if z.Barrett? then {z.r2, z.q3} else {}
  }

  /** The numbers that a reducer reads. */
  ghost function Parts(z: Reducer): set<BigInteger> {
    if z.Barrett? then {z.m, z.mu} else {z.m}
  }

  /** The number in range that stands for the residue `v`: Montgomery scales it by R = 2^(28 t). */
  ghost function Image(montgomery: bool, v: int, t: nat, m: int): int
    requires m > 0
  {
    if montgomery then Mod(Mul(v, B(t)), m) else Mod(v, m)
  }

  ghost predicate StandsFor(z: Reducer, x: BigInteger, v: int)
    reads z.m, x
  {
    Modulus(z.m) && x.Normal() && x.Value() == Image(z.Montgomery?, v, z.m.t, z.m.Value())
  }

  /** crypto.js `Montgomery`: the constructor. */
  method NewMontgomery(m: BigInteger) returns (z: Reducer)
    requires Modulus(m) && m.arr[0] % 2 == 1
    ensures z.Montgomery? && z.m == m && ValidMontgomery(z)
  {
    var mp := InvDigit(m);
    z := Montgomery(m, mp, Mask(mp, 0x8000), Sar(mp, 0x8000), 0x2000 - 1, 2 * m.t);
  }

  /** `z.convert(x)` */
  method Convert(z: Reducer, x: BigInteger) returns (r: BigInteger)
    requires ValidReducer(z) && x.Normal() && x !in Scratch(z)
    modifies Scratch(z)
    ensures ValidReducer(z) && StandsFor(z, r, x.Value()) && (r == x || fresh(r))
  {
    hide Val;
    hide B;
    hide Mul;
    hide Div;
    hide Mod;
    hide ValueOf;
    match z
    case Classic(m) =>
      var c := x.CompareTo(m);
      Compare.Bounds(x.arr, x.t, x.s);
      Compare.CompareOrders(x.arr, x.t, x.s, m.arr, m.t, m.s);
      if x.s < 0 || c >= 0 {
        r := Modulo(x, m);
      } else {
        MulUnit(m.Value());
        FloorDiv(x.Value(), m.Value(), 0, x.Value());
        r := x;
      }
    case Barrett(_, _, _, _) =>
      r := BarrettConvert(z, x);
    case Montgomery(_, _, _, _, _, _) =>
      r := MontConvert(z, x);
  }

  /** A number below the product of two residues is short enough to be reduced. */
  lemma ProductFits(r: Cells, rt: nat, s: int, m: Cells, t: nat, x: int, y: int)
    requires Compare.Clamped(r, rt, s) && Compare.Clamped(m, t, 0) && t > 0
    requires 0 <= x < ValueOf(m, t, 0) && 0 <= y < ValueOf(m, t, 0) && ValueOf(r, rt, s) == Mul(x, y)
    ensures s == 0 && rt <= 2 * t && 0 <= ValueOf(r, rt, s) < Mul(ValueOf(m, t, 0), B(t))
  {
    hide Val;
    hide B;
    hide Mul;
    hide ValueOf;
    var v := ValueOf(m, t, 0);
    Compare.Bounds(m, t, 0);
    Compare.Bounds(r, rt, s);
    MulBoundsStrict(x, v, y, B(t));
    MulBounds(x, x, y, y);
    MulLe(v, B(t), B(t));
    BAdd(t, t);
    if rt > 2 * t {
      BMonotonic(2 * t, rt - 1);
    }
  }

  lemma ResidueFits(r: Cells, rt: nat, s: int, m: Cells, t: nat)
    requires Compare.Clamped(r, rt, s) && Compare.Clamped(m, t, 0) && t > 0
    requires 0 <= ValueOf(r, rt, s) < ValueOf(m, t, 0)
    ensures s == 0 && rt <= 2 * t && ValueOf(r, rt, s) < Mul(ValueOf(m, t, 0), B(t))
  {
    hide Val;
    hide B;
    hide Mul;
    hide ValueOf;
    MulLe(1, B(t), ValueOf(m, t, 0));
    MulUnit(ValueOf(r, rt, s));
    MulUnit(ValueOf(m, t, 0));
    Compare.Bounds(m, t, 0);
    Compare.Bounds(r, rt, s);
    if rt > 2 * t {
      BMonotonic(t, rt - 1);
    }
  }

  /** As `mp` is minus the inverse of the odd modulus m modulo 2^28, 2^28 has an inverse modulo m. */
  lemma WordInverse(m: Cells, t: nat, mp: int) returns (h: int)
    requires t > 0 && IsDigits(m, 0, t) && Val(m, 0, t) > 0 && Cong(Mul(m[0], mp), -1, DV)
    ensures Cong(Mul(DV, h), 1, Val(m, 0, t))
  {
    hide Val;
    hide B;
    hide Mul;
    var v, rest := Val(m, 0, t), Val(m, 1, t - 1);
    ValLow(m, 0, t - 1);
    MulDV(rest);
    CongIntro(v, m[0], rest, DV);
    CongRefl(mp, DV);
    CongMul(v, m[0], mp, mp, DV);
    CongTrans(Mul(v, mp), Mul(m[0], mp), -1, DV);
    h := CongWitness(Mul(v, mp), -1, DV);
    MulComm(h, DV);
    MulComm(v, mp);
    CongIntro(Mul(DV, h), 1, mp, v);
  }

  lemma {:induction false} RInverse(t: nat, h: int, m: int)
    requires Cong(Mul(DV, h), 1, m)
    ensures Cong(Mul(B(t), Power(h, t)), 1, m)
  {
    if t == 0 {
      MulUnit(1);
      CongRefl(1, m);
    } else {
      RInverse(t - 1, h, m);
      BStep(t - 1);
      var b, p := B(t - 1), Power(h, t - 1);
      assert Power(h, t) == Mul(h, p);
      hide B;
      hide Power;
      hide Mul;
      CongMul(Mul(DV, h), 1, Mul(b, p), 1, m);
      MulUnit(1);
      FourFactors(DV, h, b, p);
      MulComm(b, DV);
      MulDV(b);
      FourFactors(b, DV, h, p);
      assert Mul(Mul(DV, h), Mul(b, p)) == Mul(Mul(b, DV), Mul(h, p));
    }
  }

  lemma CancelFactor(y: int, s: int, r: int, k: int, m: int)
    requires Cong(Mul(y, r), Mul(s, r), m) && Cong(Mul(r, k), 1, m)
    ensures Cong(y, s, m)
  {
    hide Cong;
    hide Mul;
    CongRefl(k, m) by { CongModulus(Mul(r, k), 1, m); }
    CongRefl(y, m) by { CongModulus(Mul(r, k), 1, m); }
    CongRefl(s, m) by { CongModulus(Mul(r, k), 1, m); }
    CongMul(Mul(y, r), Mul(s, r), k, k, m);
    MulAssoc(y, r, k);
    MulAssoc(s, r, k);
    CongMul(y, y, Mul(r, k), 1, m);
    CongMul(s, s, Mul(r, k), 1, m);
    MulUnit(y);
    MulUnit(s);
    CongSym(Mul(y, Mul(r, k)), y, m);
    CongTrans(y, Mul(y, Mul(r, k)), Mul(s, Mul(r, k)), m);
    CongTrans(y, Mul(s, Mul(r, k)), s, m);
  }

  lemma CongModulus(a: int, b: int, m: int)
    requires Cong(a, b, m)
    ensures m > 0
  {}

  lemma CongSym(a: int, b: int, m: int)
    requires Cong(a, b, m)
    ensures Cong(b, a, m)
  {}

  /** The result of a Montgomery reduction is the only residue whose product with R is the input. */
  lemma Unscaled(m: Cells, t: nat, mp: int, y: int, x: int, s: int)
    requires t > 0 && IsDigits(m, 0, t) && 0 <= y < Val(m, 0, t) && Cong(Mul(m[0], mp), -1, DV)
    requires Cong(Mul(y, B(t)), x, Val(m, 0, t)) && Cong(x, Mul(s, B(t)), Val(m, 0, t))
    ensures y == Mod(s, Val(m, 0, t))
  {
    hide Val;
    hide B;
    hide Mul;
    hide Cong;
    hide Mod;
    hide Power;
    var v := Val(m, 0, t);
    var h := WordInverse(m, t, mp);
    RInverse(t, h, v);
    CongTrans(Mul(y, B(t)), x, Mul(s, B(t)), v);
    CancelFactor(y, s, B(t), Power(h, t), v);
    CongSmall(y, s, v);
  }

  /** `z.revert(x)` */
  method Revert(z: Reducer, x: BigInteger, ghost v: int) returns (r: BigInteger)
    requires ValidReducer(z) && StandsFor(z, x, v) && x != z.m
    ensures r.Normal() && r.Value() == Mod(v, z.m.Value()) && (r == x || fresh(r))
  {
    hide Val;
    hide B;
    hide Mul;
    hide Div;
    hide Mod;
    hide ValueOf;
    hide Cong;
    match z
    case Classic(_) => r := x;
    case Barrett(_, _, _, _) => r := x;
    case Montgomery(m, _, _, _, _, _) =>
      r := new BigInteger();
      x.CopyTo(r);
      ResidueFits(r.arr, r.t, r.s, m.arr, m.t);
      Unsigned(m.arr, m.t);
      MontReduce(z, r);
      CongMod(Mul(v, B(m.t)), m.Value());
      Unscaled(m.arr, m.t, z.mp, r.Value(), x.Value(), v);
  }

  /** `z.reduce(r)`, for the product of two residues. */
  method Reduce(z: Reducer, r: BigInteger, ghost x: int, ghost y: int, ghost u: int, ghost v: int)
    requires ValidReducer(z) && r !in Parts(z) && r !in Scratch(z) && r.Normal() && r.Value() == Mul(x, y)
    requires x == Image(z.Montgomery?, u, z.m.t, z.m.Value()) && y == Image(z.Montgomery?, v, z.m.t, z.m.Value())
    modifies r, Scratch(z)
    ensures ValidReducer(z) && StandsFor(z, r, Mul(u, v))
  {
    hide Val;
    hide B;
    hide Mul;
    hide Div;
    hide Mod;
    hide ValueOf;
    hide Cong;
    ghost var m := z.m.Value();
    ProductFits(r.arr, r.t, r.s, z.m.arr, z.m.t, x, y);
    match z
    case Classic(_) =>
      ResidueProduct(x, y, u, v, m);
      TruncOfAbs(Mul(x, y), m);
      DivRemTo(r, z.m, null, r);
    case Barrett(_, _, _, _) =>
      ResidueProduct(x, y, u, v, m);
      BarrettReduce(z, r);
    case Montgomery(_, _, _, _, _, _) =>
      ScaledProduct(x, y, u, v, B(z.m.t), m);
      Unsigned(z.m.arr, z.m.t);
      MontReduce(z, r);
      Unscaled(z.m.arr, z.m.t, z.mp, r.Value(), Mul(x, y), Mul(Mul(u, v), B(z.m.t)));
  }

  lemma ResidueProduct(x: int, y: int, u: int, v: int, m: int)
    requires m > 0 && x == Mod(u, m) && y == Mod(v, m)
    ensures Mod(Mul(x, y), m) == Mod(Mul(u, v), m)
  {
    CongMod(u, m);
    CongMod(v, m);
    CongMul(x, u, y, v, m);
  }

  lemma ScaledProduct(x: int, y: int, u: int, v: int, b: int, m: int)
    requires m > 0 && x == Mod(Mul(u, b), m) && y == Mod(Mul(v, b), m)
    ensures Cong(Mul(x, y), Mul(Mul(Mul(u, v), b), b), m)
  {
    hide Mul;
    CongMod(Mul(u, b), m);
    CongMod(Mul(v, b), m);
    CongMul(x, Mul(u, b), y, Mul(v, b), m);
    FourFactors(u, b, v, b);
    MulComm(v, u);
    MulAssoc(Mul(u, v), b, b);
  }

  /** `z.mulTo(x, y, r)` */
  method MulTo(z: Reducer, x: BigInteger, y: BigInteger, r: BigInteger, ghost u: int, ghost v: int)
    requires ValidReducer(z) && StandsFor(z, x, u) && StandsFor(z, y, v)
    requires r != x && r != y && r !in Parts(z) && r !in Scratch(z) && x !in Scratch(z) && y !in Scratch(z)
    modifies r, Scratch(z)
    ensures ValidReducer(z) && StandsFor(z, r, Mul(u, v))
  {
    hide Image;
    hide ValueOf;
    ghost var xv, yv := x.Value(), y.Value();
    MultiplyTo(x, y, r);
    MulIsProduct(xv, yv);
    Reduce(z, r, xv, yv, u, v);
  }

  /** `z.sqrTo(x, r)` */
  method SqrTo(z: Reducer, x: BigInteger, r: BigInteger, ghost u: int)
    requires ValidReducer(z) && StandsFor(z, x, u)
    requires r != x && r !in Parts(z) && r !in Scratch(z) && x !in Scratch(z)
    modifies r, Scratch(z)
    ensures ValidReducer(z) && StandsFor(z, r, Mul(u, u))
  {
    hide Image;
    hide ValueOf;
    ghost var xv := x.Value();
    SquareTo(x, r);
    MulIsProduct(xv, xv);
    Reduce(z, r, xv, xv, u, u);
  }

  /** `g.copyTo(r)` */
  method CopyResidue(z: Reducer, g: BigInteger, r: BigInteger, ghost v: int)
    requires StandsFor(z, g, v) && r != g && r !in Parts(z)
    modifies r
    ensures StandsFor(z, r, v)
  {
    hide Image;
    hide ValueOf;
    g.CopyTo(r);
  }
}
