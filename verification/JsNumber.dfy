/** The JavaScript integer operators that the bignum code uses.  Masks and shifts convert their
    operand to a signed 32-bit integer first; they are written here for a power of two `p`. */
module JsNumber {

  const TWO31 := 0x8000_0000
  const TWO32 := 0x1_0000_0000

  /** The signed 32-bit integer congruent to `x`. */
  function ToInt32(x: int): (r: int)
    ensures -TWO31 <= r < TWO31
    ensures -TWO31 <= x < TWO31 ==> r == x
  {
    var m := x % TWO32;
    if m >= TWO31 then m - TWO32 else m
  }

  /** `x >> k` where `p` is `2^k`: an arithmetic shift, so the quotient is rounded down. */
  function Sar(x: int, p: int): (r: int)
    requires p > 0
  {
    ToInt32(x) / p
  }

  /** `x >>> k` where `p` is `2^k`: the bits of `x` read as an unsigned number. */
  function ShiftUnsigned(x: int, p: int): (r: int)
    requires p > 0
  {
    (x % TWO32) / p
  }

  /** `x & (p - 1)` where `p` is a power of two up to `2^31`: as `p` divides `2^32`, the conversion
      to 32 bits does not show. */
  function Mask(x: int, p: int): (r: int)
    requires p > 0
    ensures 0 <= r < p
  {
    x % p
  }

  /** `x << k` where `p` is `2^k`. */
  function Shl(x: int, p: int): (r: int)
    requires p > 0
  {
    ToInt32(x * p)
  }

  /** `x | y` on natural numbers, bit by bit. */
  function BitOr(x: nat, y: nat): (r: nat)
    decreases x + y
  {
    if x == 0 && y == 0 then 0
    else (if x % 2 == 1 || y % 2 == 1 then 1 else 0) + 2 * BitOr(x / 2, y / 2)
  }

  /** `2^n` */
  function Pow2(n: nat): (r: nat)
    ensures r > 0
  {
    if n == 0 then 1 else 2 * Pow2(n - 1)
  }

  lemma {:induction false} Pow2Add(m: nat, n: nat)
    ensures Pow2(m + n) == Pow2(m) * Pow2(n)
  {
    if m > 0 {
      Pow2Add(m - 1, n);
      assert Pow2(m + n) == 2 * (Pow2(m - 1) * Pow2(n));
    }
  }

  lemma {:induction false} Pow2Monotonic(m: nat, n: nat)
    requires m <= n
    ensures Pow2(m) <= Pow2(n)
  {
    if m < n {
      Pow2Monotonic(m, n - 1);
    }
  }

  lemma {:induction false} BitOrZero(x: nat)
    ensures BitOr(x, 0) == x && BitOr(0, x) == x
  {
    if x > 0 {
      BitOrZero(x / 2);
    }
  }

  /** The operands of `|` in the shift routines have no bit in common, so `|` adds them. */
  lemma {:induction false} BitOrAdds(x: nat, y: nat, n: nat)
    requires y < Pow2(n)
    ensures BitOr(x * Pow2(n), y) == x * Pow2(n) + y
    ensures BitOr(y, x * Pow2(n)) == x * Pow2(n) + y
    decreases n
  {
    if n == 0 {
      BitOrZero(x);
    } else {
      var z := x * Pow2(n - 1);
      assert x * Pow2(n) == 2 * z;
      BitOrAdds(x, y / 2, n - 1);
      assert (2 * z) / 2 == z && (2 * z) % 2 == 0;
      if 2 * z == 0 && y == 0 {
      } else {
        assert BitOr(2 * z, y) == y % 2 + 2 * BitOr(z, y / 2);
        assert BitOr(y, 2 * z) == y % 2 + 2 * BitOr(y / 2, z);
      }
    }
  }
}
