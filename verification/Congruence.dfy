/** Congruences and powers. */
module Congruence {
  import opened Digits

  /** `a` and `b` leave the same remainder. */
  ghost predicate Cong(a: int, b: int, m: int) {
    m > 0 && Mod(a, m) == Mod(b, m)
  }

  lemma CongIntro(a: int, b: int, k: int, m: int)
    requires m > 0 && a == b + Mul(k, m)
    ensures Cong(a, b, m)
  {
    DivMod(b, m);
    hide Mul;
    hide Div;
    hide Mod;
    MulAdd(Div(b, m), k, m);
    FloorDiv(a, m, Div(b, m) + k, Mod(b, m));
  }

  lemma CongWitness(a: int, b: int, m: int) returns (k: int)
    requires Cong(a, b, m)
    ensures a == b + Mul(k, m)
  {
    DivMod(a, m);
    DivMod(b, m);
    k := Div(a, m) - Div(b, m);
    MulSub(Div(a, m), Div(b, m), m);
  }

  lemma CongMod(a: int, m: int)
    requires m > 0
    ensures Cong(Mod(a, m), a, m)
  {
    DivMod(a, m);
    MulNeg(Div(a, m), m);
    CongIntro(Mod(a, m), a, -Div(a, m), m);
  }

  /** A number below the modulus is its own remainder. */
  lemma CongSmall(a: int, b: int, m: int)
    requires Cong(a, b, m) && 0 <= a < m
    ensures a == Mod(b, m)
  {
    MulUnit(m);
    FloorDiv(a, m, 0, a);
  }

  lemma CongAdd(a: int, a': int, b: int, b': int, m: int)
    requires Cong(a, a', m) && Cong(b, b', m)
    ensures Cong(a + b, a' + b', m) && Cong(a - b, a' - b', m)
  {
    var k := CongWitness(a, a', m);
    var l := CongWitness(b, b', m);
    hide Mul;
    MulAdd(k, l, m);
    MulSub(k, l, m);
    CongIntro(a + b, a' + b', k + l, m);
    CongIntro(a - b, a' - b', k - l, m);
  }

  lemma CongMul(a: int, a': int, b: int, b': int, m: int)
    requires Cong(a, a', m) && Cong(b, b', m)
    ensures Cong(Mul(a, b), Mul(a', b'), m)
  {
    var k := CongWitness(a, a', m);
    var l := CongWitness(b, b', m);
    var n := k * b + a' * l;
    CongMulAlgebra(a', b', b, k, l, m);
    CongIntro(Mul(a, b), Mul(a', b'), n, m);
  }

  lemma CongMulAlgebra(a': int, b': int, b: int, k: int, l: int, m: int)
    requires b == b' + Mul(l, m)
    ensures Mul(a' + Mul(k, m), b) == Mul(a', b') + Mul(k * b + a' * l, m)
  {
    assert (a' + k * m) * b == a' * b + (k * b) * m;
    assert a' * b == a' * b' + (a' * l) * m;
  }

  ghost function Power(b: int, n: nat): int {
    if n == 0 then 1 else Mul(b, Power(b, n - 1))
  }

  lemma {:induction false} PowerAdd(b: int, m: nat, n: nat)
    ensures Power(b, m + n) == Mul(Power(b, m), Power(b, n))
  {
    if m == 0 {
      MulUnit(Power(b, n));
    } else {
      PowerAdd(b, m - 1, n);
      MulAssoc(b, Power(b, m - 1), Power(b, n));
    }
  }

  lemma {:induction false} PowerMul(b: int, m: nat, n: nat)
    ensures m * n >= 0
    ensures Power(b, m * n) == Power(Power(b, m), n)
  {
    if n > 0 {
      PowerMul(b, m, n - 1);
      assert m * n == m + m * (n - 1);
      hide Mul;
      PowerAdd(b, m, m * (n - 1));
    } else {
      assert m * n == 0;
    }
  }

  lemma {:induction false} PowerCong(a: int, b: int, n: nat, m: int)
    requires Cong(a, b, m)
    ensures Cong(Power(a, n), Power(b, n), m)
  {
    if n > 0 {
      PowerCong(a, b, n - 1, m);
      CongMul(a, b, Power(a, n - 1), Power(b, n - 1), m);
    }
  }

  lemma {:induction false} PowerPositive(b: int, n: nat)
    requires b > 0
    ensures Power(b, n) > 0
  {
    if n > 0 {
      PowerPositive(b, n - 1);
      MulLess(0, b, Power(b, n - 1));
      MulUnit(Power(b, n - 1));
    }
  }
}
