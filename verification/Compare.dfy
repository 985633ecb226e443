/** What the result of `compareTo` says about the values compared. */
module Compare {
  import opened JsNumber
  import opened Digits
  import opened BigIntegers

  ghost predicate Clamped(a: Cells, t: nat, s: int) {
    -1 <= s <= 0 && IsDigits(a, 0, t) && (t > 0 ==> a[t - 1] != s % DV)
  }

  /** The sign word is the sign, and the length of a normal number bounds it from both sides. */
  lemma Bounds(a: Cells, t: nat, s: int)
    requires Clamped(a, t, s)
    ensures s == 0 ==> 0 <= ValueOf(a, t, s) < B(t) && (t > 0 ==> B(t - 1) <= ValueOf(a, t, s))
    ensures s < 0 ==> 0 - B(t) <= ValueOf(a, t, s) < 0 && (t > 0 ==> ValueOf(a, t, s) < 0 - B(t - 1))
    ensures ValueOf(a, t, s) == 0 <==> s == 0 && t == 0
  {
    ColumnStart(a, a, a);
    hide Val;
    hide B;
    ValBound(a, 0, t);
    if t > 0 {
      ValStep(a, 0, t - 1);
      ValBound(a, 0, t - 1);
      BStep(t - 1);
      if s == 0 {
        MulLe(1, a[t - 1], B(t - 1));
      } else {
        MulLe(a[t - 1], DM - 1, B(t - 1));
      }
    }
  }

  lemma {:induction false} DigitsOrder(a: Cells, b: Cells, n: nat)
    requires IsDigits(a, 0, n) && IsDigits(b, 0, n)
    ensures CompareDigits(a, b, n) > 0 <==> Val(a, 0, n) > Val(b, 0, n)
    ensures CompareDigits(a, b, n) == 0 <==> Val(a, 0, n) == Val(b, 0, n)
  {
    if n > 0 {
      DigitsOrder(a, b, n - 1);
      ValStep(a, 0, n - 1);
      ValStep(b, 0, n - 1);
      hide Val;
      hide B;
      if a[n - 1] < b[n - 1] {
        ValTopLess(a, b, 0, n);
      } else if b[n - 1] < a[n - 1] {
        ValTopLess(b, a, 0, n);
      }
    }
  }

  /** `compareTo` has the sign of the difference exactly when its operands are not two negative
      numbers of different lengths. */
  lemma CompareOrders(a: Cells, at: nat, sa: int, b: Cells, bt: nat, sb: int)
    requires Clamped(a, at, sa) && Clamped(b, bt, sb)
    ensures var c := CompareResult(a, at, sa, b, bt, sb);
            var x, y := ValueOf(a, at, sa), ValueOf(b, bt, sb);
            ((c > 0 <==> x > y) && (c < 0 <==> x < y)) <==> !(sa < 0 && sb < 0 && at != bt)
  {
    hide Val;
    hide B;
    Bounds(a, at, sa);
    Bounds(b, bt, sb);
    if sa == sb {
      if at == bt {
        DigitsOrder(a, b, at);
      } else if at < bt {
        BMonotonic(at, bt - 1);
      } else {
        BMonotonic(bt, at - 1);
      }
    }
  }

  /** Two negative numbers of different lengths come out in the wrong order: 5 - 2^28 and -1. */
  lemma CompareWrong()
    ensures exists a: Cells, b: Cells ::
              && Clamped(a, 1, -1) && Clamped(b, 0, -1)
              && ValueOf(a, 1, -1) < ValueOf(b, 0, -1)
              && CompareResult(a, 1, -1, b, 0, -1) > 0
  {
    var a: Cells, b: Cells := map[0 := 5], map[];
    assert IsDigits(a, 0, 1) && IsDigits(b, 0, 0);
    assert Val(a, 0, 1) == Val(a, 0, 0) + 5 * B(0);
    assert ValueOf(a, 1, -1) == 5 - DV && ValueOf(b, 0, -1) == -1;
    assert Clamped(a, 1, -1) && Clamped(b, 0, -1);
  }

  /** One representation for each number. */
  lemma NormalUnique(a: Cells, at: nat, sa: int, b: Cells, bt: nat, sb: int)
    requires Clamped(a, at, sa) && Clamped(b, bt, sb) && ValueOf(a, at, sa) == ValueOf(b, bt, sb)
    ensures at == bt && sa == sb && forall k :: 0 <= k < at ==> a[k] == b[k]
  {
    hide Val;
    hide B;
    Bounds(a, at, sa);
    Bounds(b, bt, sb);
    if at < bt {
      BMonotonic(at, bt - 1);
    } else if bt < at {
      BMonotonic(bt, at - 1);
    } else {
      ValUnique(a, b, 0, at);
    }
  }
}
