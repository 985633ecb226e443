/** The three ways in which the exponentiation reduces a product modulo `m`. */
module Reducers {
  import opened JsNumber
  import opened Digits
  import opened BigIntegers
  import opened Congruence

  datatype Reducer =
    | Classic(m: BigInteger)
    | Barrett(m: BigInteger, mu: BigInteger, r2: BigInteger, q3: BigInteger)
    | Montgomery(m: BigInteger, mp: int, mpl: int, mph: int, um: int, mt2: nat)

  /** A positive modulus. */
  ghost predicate Modulus(m: BigInteger)
    reads m
  {
    m.Normal() && m.s == 0 && m.t > 0 && m.Value() > 0
  }

  ghost predicate ValidMontgomery(z: Reducer)
    requires z.Montgomery?
    reads z.m
  {
    && Modulus(z.m) && 0 <= z.mp < DV && Cong(Mul(z.m.arr[0], z.mp), -1, DV)
    && z.mpl == Mask(z.mp, 0x8000) && z.mph == Sar(z.mp, 0x8000) && z.um == 0x1fff
    && z.mt2 == 2 * z.m.t
  }

  /** `mu` approximates the reciprocal of `m`, and the two scratch numbers are its own. */
  ghost predicate ValidBarrett(z: Reducer)
    requires z.Barrett?
    reads z.m, z.mu, z.r2, z.q3
  {
    && Modulus(z.m) && z.m.t + 3 <= DV
    && z.mu.Normal() && z.mu.s == 0 && z.mu.Value() == Div(B(2 * z.m.t), z.m.Value())
    && z.r2.Valid() && z.q3.Valid()
    && z.m != z.mu && z.r2 != z.q3 && z.r2 != z.m && z.r2 != z.mu && z.q3 != z.m && z.q3 != z.mu
  }
}
