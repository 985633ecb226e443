/** The theorems about primes on which the primality test and RSA decryption rest. */
module NumberTheory {
  import opened Digits
  import opened Congruence
  import opened Montgomery
  import opened Reductions

  ghost predicate Divides(d: int, x: int)
    requires d > 0
  {
    Mod(x, d) == 0
  }

  ghost predicate Prime(p: int) {
    p >= 2 && forall d :: 2 <= d < p ==> !Divides(d, p)
  }

  /** Every residue of a prime but 0 has an inverse. */
  lemma {:induction false} Inverse(a: int, p: int) returns (h: int)
    requires Prime(p) && 0 < a < p
    ensures Cong(Mul(h, a), 1, p)
    decreases a
  {
    if a == 1 {
      h := 1;
      MulUnit(1);
      CongRefl(1, p);
    } else {
      var q, r := Div(p, a), Mod(p, a);
      DivMod(p, a);
      assert !Divides(a, p);
      var k := Inverse(r, p);
      h := -Mul(k, q);
      hide Mul;
      hide Div;
      hide Mod;
      hide Cong;
      // k * r = k * p - (k * q) * a
      assert r == p - Mul(q, a);
      MulSub(p, Mul(q, a), k);
      MulAssoc(k, q, a);
      MulNeg(Mul(k, q), a);
      assert Mul(h, a) == Mul(k, r) + Mul(-k, p) by {
        MulNeg(k, p);
      }
      CongIntro(Mul(h, a), Mul(k, r), -k, p);
      CongTrans(Mul(h, a), Mul(k, r), 1, p);
    }
  }

  /** A residue that a prime does not divide has an inverse. */
  lemma InverseOf(a: int, p: int) returns (h: int)
    requires Prime(p) && !Divides(p, a)
    ensures Cong(Mul(h, a), 1, p)
  {
    h := Inverse(Mod(a, p), p);
    CongMod(a, p);
    CongRefl(h, p);
    CongMul(h, h, Mod(a, p), a, p);
    CongSym(Mul(h, Mod(a, p)), Mul(h, a), p);
    CongTrans(Mul(h, a), Mul(h, Mod(a, p)), 1, p);
  }

  lemma DividesCong(d: int, x: int)
    requires d > 0
    ensures Divides(d, x) <==> Cong(x, 0, d)
  {
    MulUnit(d);
    FloorDiv(0, d, 0, 0);
  }

  /** Euclid's lemma. */
  lemma Euclid(p: int, a: int, b: int)
    requires Prime(p) && Divides(p, Mul(a, b))
    ensures Divides(p, a) || Divides(p, b)
  {
    if !Divides(p, a) {
      var h := InverseOf(a, p);
      DividesCong(p, Mul(a, b));
      DividesCong(p, b);
      hide Divides;
      hide Cong;
      hide Mul;
      CongRefl(h, p);
      CongMul(h, h, Mul(a, b), 0, p);
      MulUnit(h);
      MulAssoc(h, a, b);
      CongRefl(b, p);
      CongMul(Mul(h, a), 1, b, b, p);
      MulUnit(b);
      CongSym(Mul(Mul(h, a), b), b, p);
      CongTrans(b, Mul(h, Mul(a, b)), 0, p);
    }
  }

  /** A factor that the prime does not divide can be cancelled. */
  lemma CancelPrime(p: int, k: int, a: int, b: int)
    requires Prime(p) && !Divides(p, k) && Cong(Mul(k, a), Mul(k, b), p)
    ensures Cong(a, b, p)
  {
    hide Mul;
    hide Mod;
    CongRefl(Mul(k, b), p);
    CongAdd(Mul(k, a), Mul(k, b), Mul(k, b), Mul(k, b), p);
    MulSub(a, b, k);
    DividesCong(p, Mul(k, a - b));
    Euclid(p, k, a - b);
    DividesCong(p, a - b);
    CongRefl(b, p);
    CongAdd(a - b, 0, b, b, p);
  }

  /** Only 1 and -1 square to 1. */
  lemma RootsOfOne(p: int, y: int)
    requires Prime(p) && Cong(Mul(y, y), 1, p)
    ensures Cong(y, 1, p) || Cong(y, -1, p)
  {
    hide Mod;
    CongRefl(1, p);
    CongAdd(Mul(y, y), 1, 1, 1, p);
    assert Mul(y - 1, y + 1) == Mul(y, y) - 1;
    hide Mul;
    DividesCong(p, Mul(y - 1, y + 1));
    Euclid(p, y - 1, y + 1);
    DividesCong(p, y - 1);
    DividesCong(p, y + 1);
    if Divides(p, y - 1) {
      CongAdd(y - 1, 0, 1, 1, p);
    } else {
      CongAdd(y + 1, 0, 1, 1, p);
    }
  }

  /** Pascal's triangle. */
  ghost function Choose(n: nat, k: nat): nat {
    if k == 0 then 1 else if n == 0 then 0 else Choose(n - 1, k - 1) + Choose(n - 1, k)
  }

  lemma {:induction false} ChooseNone(n: nat, k: nat)
    requires k > n
    ensures Choose(n, k) == 0
  {
    if n > 0 {
      ChooseNone(n - 1, k - 1);
      ChooseNone(n - 1, k);
    }
  }

  lemma {:induction false} ChooseAll(n: nat)
    ensures Choose(n, n) == 1
  {
    if n > 0 {
      ChooseAll(n - 1);
      ChooseNone(n - 1, n);
    }
  }

  lemma {:induction false} ChooseAbsorbs(n: nat, k: nat)
    requires n > 0 && k > 0
    ensures Mul(k, Choose(n, k)) == Mul(n, Choose(n - 1, k - 1))
  {
    if n == 1 {
      if k > 1 {
        ChooseNone(1, k);
        ChooseNone(0, k - 1);
      }
      MulUnit(k);
    } else {
      ChooseAbsorbs(n - 1, k);
      var a, b, d := Choose(n - 1, k - 1), Choose(n - 1, k), Choose(n - 2, k - 1);
      if k == 1 {
        AbsorbAlgebra(k, n, a, b, 0, d);
      } else {
        ChooseAbsorbs(n - 1, k - 1);
        AbsorbAlgebra(k, n, a, b, Choose(n - 2, k - 2), d);
      }
    }
  }

  lemma AbsorbAlgebra(k: int, n: int, a: int, b: int, c: int, d: int)
    requires a == c + d && Mul(k - 1, a) == Mul(n - 1, c) && Mul(k, b) == Mul(n - 1, d)
    ensures Mul(k, a + b) == Mul(n, a)
  {
    hide Mul;
    MulAdd(a, b, k);
    MulSub(k, 1, a);
    MulSub(n, 1, a);
    MulAdd(c, d, n - 1);
    MulUnit(a);
  }

  /** A prime divides the inner entries of its row. */
  lemma ChoosePrime(p: nat, k: nat)
    requires Prime(p) && 0 < k < p
    ensures Cong(Choose(p, k), 0, p)
  {
    ChooseAbsorbs(p, k);
    var c := Choose(p - 1, k - 1);
    MulComm(p, c);
    MulUnit(p);
    FloorDiv(Mul(c, p), p, c, 0);
    assert Divides(p, Mul(k, Choose(p, k)));
    Euclid(p, k, Choose(p, k));
    FloorDiv(k, p, 0, k);
    DividesCong(p, Choose(p, k));
  }

  /** The first `j` terms of the expansion of `(1 + a)^n`. */
  ghost function Terms(n: nat, j: nat, a: int): int {
    if j == 0 then 0 else Terms(n, j - 1, a) + Mul(Choose(n, j - 1), Power(a, j - 1))
  }

  lemma {:induction false} TermsStep(n: nat, j: nat, a: int)
    ensures Terms(n + 1, j + 1, a) == Terms(n, j + 1, a) + Mul(a, Terms(n, j, a))
  {
    if j == 0 {
      MulUnit(a);
    } else {
      TermsStep(n, j - 1, a);
      var c, d, p := Choose(n, j - 1), Choose(n, j), Power(a, j - 1);
      assert Choose(n + 1, j) == c + d && Power(a, j) == Mul(a, p);
      assert Terms(n + 1, j + 1, a) == Terms(n + 1, j, a) + Mul(c + d, Mul(a, p));
      assert Terms(n, j + 1, a) == Terms(n, j, a) + Mul(d, Mul(a, p));
      assert Terms(n, j, a) == Terms(n, j - 1, a) + Mul(c, p);
      hide Terms;
      hide Choose;
      hide Power;
      hide Mul;
      MulAdd(c, d, Mul(a, p));
      MulAdd(Terms(n, j - 1, a), Mul(c, p), a);
      MulAssoc(a, c, p);
      MulAssoc(c, a, p);
      MulComm(a, c);
    }
  }

  lemma {:induction false} Binomial(n: nat, a: int)
    ensures Terms(n, n + 1, a) == Power(1 + a, n)
  {
    if n == 0 {
      assert Terms(0, 1, a) == Mul(1, 1);
    } else {
      Binomial(n - 1, a);
      TermsStep(n - 1, n, a);
      ChooseNone(n - 1, n);
      MulUnit(Power(a, n));
      assert Terms(n - 1, n + 1, a) == Terms(n - 1, n, a);
      MulAdd(1, a, Power(1 + a, n - 1));
      MulUnit(Power(1 + a, n - 1));
    }
  }

  lemma {:induction false} InnerTerms(p: nat, j: nat, a: int)
    requires Prime(p) && 0 < j <= p
    ensures Cong(Terms(p, j, a), 1, p)
  {
    if j == 1 {
      assert Terms(p, 1, a) == Terms(p, 0, a) + Mul(1, 1);
      MulUnit(1);
      CongRefl(1, p);
    } else {
      InnerTerms(p, j - 1, a);
      ChoosePrime(p, j - 1);
      var c, w := Choose(p, j - 1), Power(a, j - 1);
      hide Choose;
      hide Power;
      hide Mul;
      hide Mod;
      CongRefl(w, p);
      CongMul(c, 0, w, w, p);
      MulUnit(w);
      CongAdd(Terms(p, j - 1, a), 1, Mul(c, w), 0, p);
    }
  }

  lemma {:induction false} FermatNat(p: nat, a: nat)
    requires Prime(p)
    ensures Cong(Power(a, p), a, p)
  {
    if a == 0 {
      assert Power(0, p) == Mul(0, Power(0, p - 1));
      MulUnit(Power(0, p - 1));
      CongRefl(0, p);
    } else {
      FermatNat(p, a - 1);
      Binomial(p, a - 1);
      InnerTerms(p, p, a - 1);
      ChooseAll(p);
      var w := Power(a - 1, p);
      MulUnit(w);
      assert Terms(p, p + 1, a - 1) == Terms(p, p, a - 1) + w;
      hide Power;
      hide Terms;
      hide Mod;
      CongAdd(Terms(p, p, a - 1), 1, w, a - 1, p);
      assert 1 + (a - 1) == a;
    }
  }

  /** Fermat's little theorem. */
  lemma Fermat(p: int, a: int)
    requires Prime(p) && !Divides(p, a)
    ensures Cong(Power(a, p - 1), 1, p)
  {
    FermatNat(p, Mod(a, p));
    CongMod(a, p);
    PowerCong(Mod(a, p), a, p, p);
    hide Mod;
    CongSym(Power(Mod(a, p), p), Power(a, p), p);
    CongTrans(Power(a, p), Power(Mod(a, p), p), Mod(a, p), p);
    CongTrans(Power(a, p), Mod(a, p), a, p);
    MulUnit(a);
    CancelPrime(p, a, Power(a, p - 1), 1);
  }
}
