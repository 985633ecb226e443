/** RSA: the public operation, and the private one through the Chinese remainder theorem. */
module Rsa {
  import opened JsNumber
  import opened Digits
  import opened BigIntegers
  import opened Multiply
  import opened Congruence
  import opened Reducers
  import opened Reductions
  import opened Montgomery
  import opened Exponents
  import opened SlidingWindow
  import opened NumberTheory
  import opened Primality
  import Compare

  /** Section 3 of RFC 8017: two odd primes, and `d` undoes `e` modulo each prime less one. */
  ghost predicate KeyPair(n: int, e: int, d: int, p: int, q: int) {
    && Prime(p) && Prime(q) && p != q && p > 2 && q > 2 && n == Mul(p, q)
    && e > 0 && d > 0 && Cong(Mul(e, d), 1, p - 1) && Cong(Mul(e, d), 1, q - 1)
  }

  /** The second representation of a private key in section 3.2 of RFC 8017. */
  ghost predicate CrtParameters(e: int, p: int, q: int, dp: int, dq: int, c: int) {
    && p > 2 && q > 2 && dp > 0 && dq > 0 && Cong(Mul(e, dp), 1, p - 1) && Cong(Mul(e, dq), 1, q - 1)
    && Cong(Mul(c, q), 1, p)
  }

  lemma {:induction false} DividesPower(p: int, x: int, a: nat)
    requires p > 0 && a > 0 && Divides(p, x)
    ensures Cong(Power(x, a), 0, p)
  {
    DividesCong(p, x);
    CongRefl(Power(x, a - 1), p);
    MulUnit(Power(x, a - 1));
    assert Power(x, a) == Mul(x, Power(x, a - 1));
    hide Power;
    hide Mul;
    CongMul(x, 0, Power(x, a - 1), Power(x, a - 1), p);
  }

  lemma {:induction false} PowerOfOne(k: nat)
    ensures Power(1, k) == 1
  {
    if k > 0 {
      PowerOfOne(k - 1);
      MulUnit(1);
    }
  }

  /** Adding a multiple of p - 1 to a positive exponent changes nothing modulo p. */
  lemma ExponentGrows(p: int, x: int, b: nat, k: nat)
    requires Prime(p) && b > 0
    ensures (p - 1) * k >= 0 && Cong(Power(x, b + (p - 1) * k), Power(x, b), p)
  {
    MulLe(0, k, p - 1);
    var a: nat := b + (p - 1) * k;
    if Divides(p, x) {
      DividesPower(p, x, a);
      DividesPower(p, x, b);
    } else {
      Fermat(p, x);
      PowerAdd(x, b, (p - 1) * k);
      PowerMul(x, p - 1, k);
      PowerCong(Power(x, p - 1), 1, k, p);
      PowerOfOne(k);
      hide Power;
      hide Mul;
      CongRefl(Power(x, b), p);
      CongMul(Power(x, b), Power(x, b), Power(Power(x, p - 1), k), 1, p);
      MulUnit(Power(x, b));
    }
  }

  lemma ExponentCong(p: int, x: int, a: nat, b: nat)
    requires Prime(p) && a > 0 && b > 0 && Cong(a, b, p - 1)
    ensures Cong(Power(x, a), Power(x, b), p)
  {
    var k := CongWitness(a, b, p - 1);
    if k >= 0 {
      ExponentGrows(p, x, b, k);
    } else {
      MulNeg(k, p - 1);
      ExponentGrows(p, x, a, -k);
    }
  }

  /** Two inverses of one exponent agree. */
  lemma InversesAgree(e: int, a: int, b: int, m: int)
    requires Cong(Mul(e, a), 1, m) && Cong(Mul(e, b), 1, m)
    ensures Cong(a, b, m)
  {
    hide Cong;
    hide Mul;
    CongModulus(Mul(e, a), 1, m);
    CongRefl(a, m);
    CongRefl(b, m);
    CongMul(a, a, Mul(e, b), 1, m);
    CongMul(Mul(e, a), 1, b, b, m);
    MulUnit(a);
    MulUnit(b);
    MulAssoc(a, e, b);
    MulComm(a, e);
    CongSym(Mul(a, Mul(e, b)), a, m);
    CongTrans(a, Mul(Mul(e, a), b), b, m);
  }

  /** Numbers that agree modulo two distinct primes agree modulo their product. */
  lemma Crt(p: int, q: int, a: int, b: int)
    requires Prime(p) && Prime(q) && p != q && Cong(a, b, p) && Cong(a, b, q)
    ensures Mul(p, q) > 0 && Cong(a, b, Mul(p, q))
  {
    MulLess(0, p, q);
    MulUnit(q);
    var k := CongWitness(a, b, q);
    var l := CongWitness(a, b, p);
    PrimesApart(p, q);
    MulUnit(p);
    FloorDiv(Mul(k, q), p, l, 0);
    Euclid(p, k, q);
    DivMod(k, p);
    var m := Div(k, p);
    hide Mul;
    MulAssoc(m, p, q);
    CongIntro(a, b, m, Mul(p, q));
  }

  lemma PrimesApart(p: int, q: int)
    requires Prime(p) && Prime(q) && p != q
    ensures !Divides(p, q)
  {
    if q < p {
      MulUnit(p);
      FloorDiv(q, p, 0, q);
    }
  }

  /** What both representations of the key compute, modulo each prime. */
  lemma CrtPower(p: int, x: int, d: nat, dp: nat, e: int)
    requires Prime(p) && p > 2 && d > 0 && dp > 0 && Cong(Mul(e, d), 1, p - 1) && Cong(Mul(e, dp), 1, p - 1)
    ensures Mod(Power(Mod(x, p), dp), p) == Mod(Power(x, d), p)
  {
    InversesAgree(e, dp, d, p - 1);
    ExponentCong(p, x, dp, d);
    CongMod(x, p);
    PowerCong(Mod(x, p), x, dp, p);
  }

  /** Garner's recombination gives the residue modulo the product. */
  lemma Recombined(p: int, q: int, c: int, y: int, xp: int, xq: int, h: int)
    requires Prime(p) && Prime(q) && p != q && Cong(Mul(c, q), 1, p)
    requires Cong(xp, y, p) && xq == Mod(y, q) && h == Mod(Mul(xp - xq, c), p)
    ensures Mul(p, q) > 0 && Mul(h, q) + xq == Mod(y, Mul(p, q))
  {
    var z := Mul(h, q) + xq;
    CongMod(y, q);
    CongIntro(z, xq, h, q);
    CongTrans(z, xq, y, q);
    RecombinedP(p, q, c, y, xp, xq, h);
    Crt(p, q, z, y);
    MulLe(h, p - 1, q);
    MulLe(0, h, q);
    MulSub(p, 1, q);
    MulUnit(q);
    hide Mul;
    hide Mod;
    hide Cong;
    CongSmall(z, y, Mul(p, q));
  }

  lemma RecombinedP(p: int, q: int, c: int, y: int, xp: int, xq: int, h: int)
    requires Prime(p) && Prime(q) && Cong(Mul(c, q), 1, p) && Cong(xp, y, p) && h == Mod(Mul(xp - xq, c), p)
    ensures Cong(Mul(h, q) + xq, y, p)
  {
    hide Mul;
    hide Mod;
    hide Cong;
    hide Prime;
    assert p > 0 by {
      CongModulus(xp, y, p);
    }
    var f := xp - xq;
    CongMod(Mul(f, c), p);
    CongRefl(q, p);
    CongRefl(f, p);
    CongRefl(xq, p);
    CongMul(h, Mul(f, c), q, q, p);
    MulAssoc(f, c, q);
    CongMul(f, f, Mul(c, q), 1, p);
    MulUnit(f);
    CongTrans(Mul(h, q), Mul(f, Mul(c, q)), f, p);
    CongAdd(Mul(h, q), f, xq, xq, p);
    CongTrans(Mul(h, q) + xq, xp, y, p);
  }

  /** The private operation undoes the public one. */
  lemma RoundTrip(n: int, e: nat, d: nat, p: int, q: int, x: int)
    requires KeyPair(n, e, d, p, q) && 0 <= x < n
    ensures Mod(Power(Mod(Power(x, e), n), d), n) == x == Mod(Power(Mod(Power(x, d), n), e), n)
  {
    MulComm(e, d);
    RoundTripOneWay(n, e, d, p, q, x);
    RoundTripOneWay(n, d, e, p, q, x);
  }

  lemma RoundTripOneWay(n: int, e: nat, d: nat, p: int, q: int, x: int)
    requires KeyPair(n, e, d, p, q) && 0 <= x < n
    ensures Mod(Power(Mod(Power(x, e), n), d), n) == x
  {
    PowerMul(x, e, d);
    MulLess(0, e, d);
    MulUnit(d);
    assert Mul(e, d) == e * d;
    PowerOne(x);
    ExponentCong(p, x, e * d, 1);
    ExponentCong(q, x, e * d, 1);
    Crt(p, q, Power(x, e * d), x);
    CongMod(Power(x, e), n);
    PowerCong(Mod(Power(x, e), n), Power(x, e), d, n);
    hide Power;
    hide Mul;
    CongTrans(Power(Mod(Power(x, e), n), d), Power(Power(x, e), d), x, n);
    CongSym(Power(Mod(Power(x, e), n), d), x, n);
    hide Mod;
    CongSmall(x, Power(Mod(Power(x, e), n), d), n);
  }

  class RSAKey {
    var n: BigInteger
    var e: int
    var d: BigInteger
    var p: BigInteger?
    var q: BigInteger?
    var dmp1: BigInteger?
    var dmq1: BigInteger?
    var coeff: BigInteger?

    constructor (n: BigInteger, e: int, d: BigInteger)
      ensures this.n == n && this.e == e && this.d == d && p == null && q == null
      ensures dmp1 == null && dmq1 == null && coeff == null
    {
      this.n, this.e, this.d := n, e, d;
      p, q, dmp1, dmq1, coeff := null, null, null, null, null;
    }

    ghost function Numbers(): set<BigInteger?>
      reads this
    {
      {n, d, p, q, dmp1, dmq1, coeff}
    }

    /** The public part alone. */
    ghost predicate Public()
      reads this, n
    {
      Modulus(n) && 1 <= e < TWO32
    }

    /** A private key without its primes. */
    ghost predicate Plain()
      reads this, n, d
    {
      Modulus(n) && (n.Value() % 2 == 0 ==> n.t + 3 <= DV) && Positive(d) && (p == null || q == null)
    }

    /** A valid private key with its primes and the parameters of the Chinese remainder theorem. */
    ghost predicate WithPrimes()
      reads this, Numbers()
    {
      && Modulus(n) && Positive(d) && p != null && q != null && dmp1 != null && dmq1 != null && coeff != null
      && Modulus(p) && Modulus(q) && Positive(dmp1) && Positive(dmq1) && coeff.Normal()
      && KeyPair(n.Value(), e, d.Value(), p.Value(), q.Value())
      && CrtParameters(e, p.Value(), q.Value(), dmp1.Value(), dmq1.Value(), coeff.Value())
    }

    /** crypto.js `RSADoPublic` */
    method DoPublic(x: BigInteger) returns (r: BigInteger)
      requires Public() && x.Normal()
      ensures fresh(r) && r.Normal() && r.Value() == Mod(Power(x.Value(), e), n.Value())
    {
      r := ModPowInt(x, e, n);
    }

    /** crypto.js `RSADoPrivate`: x^d modulo n, by either representation of the key. */
    method DoPrivate(x: BigInteger) returns (r: BigInteger)
      requires (Plain() || WithPrimes()) && x.Normal()
      ensures fresh(r) && r.Normal() && d.Value() > 0 && r.Value() == Mod(Power(x.Value(), d.Value()), n.Value())
    {
      if p == null || q == null {
        r := ModPow(x, d, n);
        return;
      }
      ghost var dv, y := d.Value(), Power(x.Value(), d.Value());
      ghost var pv, qv := p.Value(), q.Value();
      PrimeOdd(pv);
      PrimeOdd(qv);
      var xp := ModularPower(x, p, dmp1);
      CrtPower(pv, x.Value(), dv, dmp1.Value(), e);
      var xq := ModularPower(x, q, dmq1);
      CrtPower(qv, x.Value(), dv, dmq1.Value(), e);
      CongMod(y, pv);
      xp := RaiseAbove(xp, xq, p, y);
      r := Garner(xp, xq, coeff, p, q);
      Recombined(pv, qv, coeff.Value(), y, xp.Value(), xq.Value(), Mod(Mul(xp.Value() - xq.Value(), coeff.Value()), pv));
    }
  }

  ghost predicate Positive(x: BigInteger)
    reads x
  {
    x.Normal() && x.s == 0 && x.Value() > 0
  }

  lemma PrimeOdd(p: int)
    requires Prime(p) && p > 2
    ensures p % 2 == 1
  {
    assert !Divides(2, p);
  }

  /** `x.mod(p).modPow(e, p)` */
  method ModularPower(x: BigInteger, p: BigInteger, e: BigInteger) returns (r: BigInteger)
    requires x.Normal() && Modulus(p) && p.Value() % 2 == 1 && Positive(e)
    ensures fresh(r) && r.Normal() && e.Value() > 0
    ensures r.Value() == Mod(Power(Mod(x.Value(), p.Value()), e.Value()), p.Value())
  {
    hide Power;
    hide Mod;
    hide ValueOf;
    var y := Modulo(x, p);
    r := ModPow(y, e, p);
  }

  /** The loop of `RSADoPrivate`: it ends with a number that is not below `xq`, of the same class. */
  method RaiseAbove(xp0: BigInteger, xq: BigInteger, p: BigInteger, ghost y: int) returns (xp: BigInteger)
    requires xp0.Normal() && xq.Normal() && Modulus(p) && xp0.Value() >= 0 && xq.Value() >= 0
    requires Cong(xp0.Value(), y, p.Value())
    ensures xp.Normal() && xp.Value() >= xq.Value() && Cong(xp.Value(), y, p.Value())
    ensures xp == xp0 || fresh(xp)
  {
    hide ValueOf;
    hide Cong;
    xp := xp0;
    var below := Less(xp, xq);
    while below
      invariant xp.Normal() && xp.Value() >= 0 && Cong(xp.Value(), y, p.Value()) && (xp == xp0 || fresh(xp))
      invariant below <==> xp.Value() < xq.Value()
      decreases xq.Value() - xp.Value()
    {
      StepClass(xp.Value(), y, p.Value());
      var sum := new BigInteger();
      xp.AddTo(p, sum);
      xp := sum;
      below := Less(xp, xq);
    }
  }

  lemma StepClass(x: int, y: int, p: int)
    requires Cong(x, y, p)
    ensures Cong(x + p, y, p)
  {
    MulUnit(p);
    CongIntro(x + p, x, 1, p);
  }

  /** `x.compareTo(y) < 0` on natural numbers */
  method Less(x: BigInteger, y: BigInteger) returns (less: bool)
    requires x.Normal() && y.Normal() && x.Value() >= 0 && y.Value() >= 0
    ensures less <==> x.Value() < y.Value()
  {
    var c := x.CompareTo(y);
    less := c < 0;
    Compare.Bounds(x.arr, x.t, x.s);
    Compare.Bounds(y.arr, y.t, y.s);
    Compare.CompareOrders(x.arr, x.t, x.s, y.arr, y.t, y.s);
  }

  /** `xp.subtract(xq).multiply(coeff).mod(p).multiply(q).add(xq)` */
  method Garner(xp: BigInteger, xq: BigInteger, c: BigInteger, p: BigInteger, q: BigInteger) returns (r: BigInteger)
    requires xp.Normal() && xq.Normal() && c.Normal() && Modulus(p) && q.Normal()
    ensures fresh(r) && r.Normal()
    ensures r.Value() == Mul(Mod(Mul(xp.Value() - xq.Value(), c.Value()), p.Value()), q.Value()) + xq.Value()
  {
    hide *;
    NormalIsValid(xp);
    NormalIsValid(xq);
    ModulusParts(p);
    var f := Subtract(xp, xq);
    NormalIsValid(f);
    NormalIsValid(c);
    var fc := new BigInteger();
    MultiplyTo(f, c, fc);
    MulIsProduct(f.Value(), c.Value());
    var h := Modulo(fc, p);
    NormalIsValid(h);
    NormalIsValid(q);
    var hq := new BigInteger();
    MultiplyTo(h, q, hq);
    MulIsProduct(h.Value(), q.Value());
    NormalIsValid(hq);
    r := new BigInteger();
    hq.AddTo(xq, r);
  }

  lemma ModulusParts(p: BigInteger)
    requires Modulus(p)
    ensures p.Normal() && p.Valid() && p.Value() > 0
  {}
}
