/** Modular exponentiation: bit by bit for small exponents, with a sliding window for large ones. */
module Exponents {
  import opened JsNumber
  import opened Digits
  import opened BigIntegers
  import opened Shifts
  import opened Congruence
  import opened Reducers
  import opened Reductions
  import opened Montgomery
  import opened Barretts
  import opened Windows
  import Compare

  /** crypto.js `bnpIsEven` */
  method IsEven(x: BigInteger) returns (even: bool)
    requires x.Valid()
    ensures even <==> x.Value() % 2 == 0
    ensures x.t > 0 ==> (even <==> x.arr[0] % 2 == 0)
  {
    var low := if x.t > 0 then Mask(x.arr[0], 2) else x.s;
    even := low == 0;
    LowBit(x.arr, x.t, x.s);
  }

  lemma LowBit(a: Cells, t: nat, s: int)
    requires IsDigits(a, 0, t) && -1 <= s <= 0
    ensures t > 0 ==> ValueOf(a, t, s) % 2 == a[0] % 2
    ensures t == 0 ==> ValueOf(a, t, s) == s
  {
    NoDigit(a, 0);
    MulUnit(s);
    hide Val;
    hide B;
    hide Mul;
    ValueOfDef(a, t, s);
    hide ValueOf;
    if t > 0 {
      ValLow(a, 0, t - 1);
      BStep(t - 1);
      MulConst(DV, s, B(t - 1));
      var rest := Val(a, 1, t - 1) + Mul(s, B(t - 1));
      assert ValueOf(a, t, s) == a[0] + DV * rest;
      EvenShift(a[0], rest);
    }
  }

  lemma EvenShift(d: int, x: int)
    ensures (d + DV * x) % 2 == d % 2
  {}

  /** `(e & (1 << i)) > 0` for i <= 30: the value of the bit, as the sign bit is not reached. */
  function TestBit32(e: int, i: nat): (bit: bool)
    requires 0 <= e
    ensures bit <==> Top(e, i) % 2 == 1
  {
    (e / Pow2(i)) % 2 == 1
  }

  /** Not one of the numbers that make up the reducer. */
  ghost predicate Apart(z: Reducer, x: BigInteger) {
    x !in Parts(z) && x !in Scratch(z)
  }

  /** One bit of the exponent: square, and multiply by the base where the bit is set. */
  method BitStep(z: Reducer, g: BigInteger, r: BigInteger, r2: BigInteger, bit: bool, ghost v: int, ghost n: nat)
    returns (to: BigInteger, spare: BigInteger)
    requires ValidReducer(z) && StandsFor(z, g, v) && StandsFor(z, r, Power(v, n))
    requires r != r2 && r != g && r2 != g && Apart(z, r) && Apart(z, r2) && g !in Scratch(z)
    modifies r, r2, Scratch(z)
    ensures ValidReducer(z) && StandsFor(z, g, v)
    ensures (to == r && spare == r2) || (to == r2 && spare == r)
    ensures StandsFor(z, to, Power(v, 2 * n + if bit then 1 else 0))
  {
    ScratchApart(z);
    PowerDouble(v, n);
    hide Power;
    hide Image;
    hide ValueOf;
    hide Mul;
    SqrTo(z, r, r2, Power(v, n));
    if bit {
      MulTo(z, r2, g, r, Power(v, 2 * n), v);
      to, spare := r, r2;
    } else {
      to, spare := r2, r;
    }
  }

  lemma ScratchApart(z: Reducer)
    requires ValidReducer(z)
    ensures Parts(z) !! Scratch(z) && z.m in Parts(z)
  {}

  /** crypto.js `bnpExp`: this^e through the reducer; an exponent out of range gives 1. */
  method Exp(x: BigInteger, e: int, z: Reducer) returns (r: BigInteger)
    requires ValidReducer(z) && x.Normal() && x !in Scratch(z)
    modifies Scratch(z)
    ensures r.Normal() && fresh(r)
    ensures r.Value() == if 1 <= e < TWO32 then Mod(Power(x.Value(), e), z.m.Value()) else 1
  {
    if e > 0xffff_ffff || e < 1 {
      r := new BigInteger();
      r.FromInt(1);
      return;
    }
    r := ExpInRange(x, e, z);
  }

  /** The loop of `bnpExp`. */
  method ExpBits(z: Reducer, g: BigInteger, a: BigInteger, b: BigInteger, e: int, top: nat, ghost v: int)
    returns (r: BigInteger)
    requires ValidReducer(z) && StandsFor(z, g, v) && 0 <= e && StandsFor(z, a, Power(v, Top(e, top)))
    requires a != b && a != g && b != g && Apart(z, a) && Apart(z, b) && g !in Scratch(z)
    modifies a, b, Scratch(z)
    ensures ValidReducer(z) && (r == a || r == b) && StandsFor(z, r, Power(v, e)) && r != z.m
  {
    TopAll(e);
    hide ValidReducer;
    hide StandsFor;
    hide Power;
    hide Top;
    hide Scratch;
    hide Apart;
    r := a;
    var r2, i := b, top;
    while i > 0
      invariant ValidReducer(z) && ((r == a && r2 == b) || (r == b && r2 == a)) && i >= 0
      invariant StandsFor(z, g, v) && StandsFor(z, r, Power(v, Top(e, i)))
    {
      i := i - 1;
      TopStep(e, i);
      var bit := TestBit32(e, i);
      r, r2 := BitStep(z, g, r, r2, bit, v, Top(e, i + 1));
    }
  }

  method ExpInRange(x: BigInteger, e: int, z: Reducer) returns (r: BigInteger)
    requires ValidReducer(z) && x.Normal() && x !in Scratch(z) && 1 <= e < TWO32
    modifies Scratch(z)
    ensures r.Normal() && fresh(r)
    ensures r.Value() == Mod(Power(x.Value(), e), z.m.Value())
  {
    ghost var v := x.Value();
    TopOne(e, v);
    hide Power;
    hide Top;
    hide Pow2;
    hide ValueOf;
    hide StandsFor;
    hide ValidReducer;
    var g, r2;
    g, r, r2 := FirstPower(z, x);
    var i := NBits(e);
    i := i - 1;
    TopBit(e, i);
    r := ExpBits(z, g, r, r2, e, i, v);
    r := Revert(z, r, Power(v, e));
  }

  /** The numbers with which the loop of `bnpExp` starts. */
  method FirstPower(z: Reducer, x: BigInteger) returns (g: BigInteger, r: BigInteger, r2: BigInteger)
    requires ValidReducer(z) && x.Normal() && x !in Scratch(z)
    modifies Scratch(z)
    ensures ValidReducer(z) && StandsFor(z, g, x.Value()) && StandsFor(z, r, x.Value())
    ensures fresh(r) && fresh(r2) && r != r2 && r != g && r2 != g && g !in Scratch(z)
    ensures Apart(z, r) && Apart(z, r2)
  {
    hide ValueOf;
    hide StandsFor;
    hide ValidReducer;
    ghost var v := x.Value();
    r := new BigInteger();
    r2 := new BigInteger();
    g := Convert(z, x);
    CopyResidue(z, g, r, v);
  }

  lemma TopOne(e: nat, v: int)
    ensures Power(v, 1) == v
  {
    PowerOne(v);
  }

  lemma PowerOne(v: int)
    ensures Power(v, 1) == v && Power(v, 0) == 1
  {
    MulUnit(v);
    assert Power(v, 1) == Mul(v, Power(v, 0));
  }

  lemma PowerDouble(v: int, n: nat)
    ensures Power(v, 2 * n) == Mul(Power(v, n), Power(v, n))
    ensures Power(v, 2 * n + 1) == Mul(Power(v, 2 * n), v)
  {
    PowerAdd(v, n, n);
    PowerAdd(v, 2 * n, 1);
    PowerOne(v);
  }

  /** crypto.js `bnModPowInt`: this^e modulo m, for 1 <= e < 2^32. */
  method ModPowInt(x: BigInteger, e: int, m: BigInteger) returns (r: BigInteger)
    requires x.Normal() && Modulus(m)
    ensures fresh(r) && r.Normal()
    ensures r.Value() == if 1 <= e < TWO32 then Mod(Power(x.Value(), e), m.Value()) else 1
  {
    var even := IsEven(m);
    var z;
    if e < 256 || even {
      z := Classic(m);
    } else {
      z := NewMontgomery(m);
    }
    r := Exp(x, e, z);
  }
}
