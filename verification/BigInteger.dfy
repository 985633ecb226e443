/** The mutable big integers of the bignum library: `t` base-2^28 digits, lowest first, and a sign
    word `s` that stands for infinitely many further digits, all 0 or all 2^28-1. */
module BigIntegers {
  import opened JsNumber
  import opened Digits

  /** Outside the window `[lo, hi)` the two arrays have the same cells. */
  ghost predicate SameOutside(a: Cells, b: Cells, lo: int, hi: int) {
    forall k :: !(lo <= k < hi) ==> (k in a <==> k in b) && Digit(a, k) == Digit(b, k)
  }

  lemma DigitsPatched(a: Cells, b: Cells, lo: int, hi: int, from: int, n: int)
    requires SameOutside(a, b, lo, hi) && IsDigits(b, lo, hi - lo) && IsDigits(a, from, n)
    ensures IsDigits(b, from, n)
  {
    forall k | from <= k < from + n
      ensures k in b && 0 <= b[k] < DV
    {
      if !(lo <= k < hi) {
        assert Digit(a, k) == Digit(b, k);
      }
    }
  }

  /** Two's complement, with the sign word extended past digit `t`. */
  ghost function ValueOf(a: Cells, t: nat, s: int): int {
    Val(a, 0, t) + Mul(s, B(t))
  }

  class BigInteger {
    var arr: Cells
    var t: int
    var s: int

    constructor ()
      ensures fresh(this) && Valid() && t == 0 && s == 0 && Value() == 0 && Normal()
    {
      arr, t, s := map[], 0, 0;
    }

    ghost predicate Valid()
      reads this
    {
      t >= 0 && -1 <= s <= 0 && IsDigits(arr, 0, t)
    }

    ghost function Value(): int
      requires Valid()
      reads this
    {
      ValueOf(arr, t, s)
    }

    /** No digit that the sign word already stands for. */
    ghost predicate Normal()
      reads this
    {
      Valid() && (t > 0 ==> arr[t - 1] != s % DV)
    }

    /** crypto.js `am3`: add `x` times digits `i..i+n` of this to digits `j..j+n` of `w`. */
    method Am(i: nat, x: int, w: BigInteger, j: nat, c0: int, n: nat) returns (c: int)
      requires 0 <= x < 2 * DV && 0 <= c0 < 3 * DV
      requires IsDigits(arr, i, n) && IsDigits(w.arr, j, n)
      requires this != w || i >= j
      modifies w`arr
      ensures IsDigits(w.arr, j, n) && SameOutside(old(w.arr), w.arr, j, j + n)
      ensures Val(w.arr, j, n) + Mul(c, B(n)) == old(Val(w.arr, j, n) + Mul(x, Val(arr, i, n))) + c0
      ensures 0 <= c < 3 * DV
    {
      hide Val;
      hide B;
      hide Mul;
      c := c0;
      var xl, xh := Mask(x, 0x4000), Sar(x, 0x4000);
      ghost var olda, oldw := arr, w.arr;
      var k := 0;
      AmStart(olda, i, oldw, w.arr, j);
      while k < n
        invariant 0 <= k <= n && 0 <= c < 3 * DV
        invariant forall q :: i + k <= q < i + n ==> q in arr && arr[q] == olda[q]
        invariant IsDigits(w.arr, j, n) && SameOutside(oldw, w.arr, j, j + k)
        invariant Val(w.arr, j, k) + Mul(c, B(k)) == Val(oldw, j, k) + Mul(x, Val(olda, i, k)) + c0
      {
        ghost var before, cin := w.arr, c;
        var digit;
        c, digit := AmDigit(xl, xh, arr[i + k], w.arr[j + k], c);
        w.arr := w.arr[j + k := digit];
        ValFrame(before, w.arr, j, k);
        ValStep(olda, i, k);
        ValStep(oldw, j, k);
        ValStep(w.arr, j, k);
        BStep(k);
        AmCarry(x, Val(olda, i, k), olda[i + k], Val(oldw, j, k), oldw[j + k], Val(w.arr, j, k), w.arr[j + k], c0, cin, c, B(k));
        k := k + 1;
      }
    }

    /** crypto.js `bnpCopyTo` */
    method CopyTo(r: BigInteger)
      requires Valid()
      modifies r
      ensures r.Valid() && r.t == old(t) && r.s == old(s) && r.Value() == old(Value())
      ensures forall k :: 0 <= k < r.t ==> r.arr[k] == old(arr[k])
      ensures SameOutside(old(r.arr), r.arr, 0, r.t)
    {
      ghost var a := arr;
      var i := t - 1;
      while i >= 0
        invariant -1 <= i < t && t == old(t) && s == old(s) && Valid()
        invariant forall k :: 0 <= k < t ==> arr[k] == a[k]
        invariant forall k :: i < k < t ==> k in r.arr && r.arr[k] == a[k]
        invariant SameOutside(old(r.arr), r.arr, 0, t)
      {
        r.arr := r.arr[i := arr[i]];
        i := i - 1;
      }
      r.t := t;
      r.s := s;
      ValFrame(a, r.arr, 0, r.t);
    }

    /** crypto.js `bnpFromInt`.  Its comment allows numbers from -DV on, but below -1 it reads the name `DV`,
        which is not declared, and fails half way: exactly those numbers cannot be set. */
    method TryFromInt(x: int) returns (ok: bool)
      requires -DV <= x < DV
      modifies this
      ensures ok <==> x >= -1
      ensures ok ==> Normal() && Value() == x
      ensures !ok ==> t == 1 && s == -1 && arr == old(arr)
    {
      t := 1;
      s := if x < 0 then -1 else 0;
      if x > 0 {
        arr := arr[0 := x];
        assert Val(arr, 0, 1) == Val(arr, 0, 0) + Digit(arr, 0) * B(0);
      } else if x < -1 {
        return false;
      } else {
        t := 0;
      }
      ok := true;
    }

    /** `bnpFromInt` where it does not fail. */
    method FromInt(x: int)
      requires -1 <= x < DV
      modifies this
      ensures Normal() && Value() == x
    {
      var ok := TryFromInt(x);
    }

    /** crypto.js `bnpClamp` */
    method Clamp()
      requires Valid()
      modifies this`t
      ensures Normal() && Value() == old(Value())
      ensures t <= old(t) && forall k :: t <= k < old(t) ==> arr[k] == s % DV
    {
      var c := Mask(s, DV);
      while t > 0 && arr[t - 1] == c
        invariant Valid() && t <= old(t) && Value() == old(Value())
        invariant forall k :: t <= k < old(t) ==> arr[k] == s % DV
      {
        ClampStep(arr[t - 1], s, B(t - 1));
        t := t - 1;
      }
    }

    /** crypto.js `bnCompareTo`: the difference of the signs, then of the lengths, then of the first
        digits that differ. */
    method CompareTo(a: BigInteger) returns (r: int)
      requires Valid() && a.Valid()
      ensures r == CompareResult(arr, t, s, a.arr, a.t, a.s)
    {
      r := s - a.s;
      if r != 0 { return; }
      var i := t;
      r := i - a.t;
      if r != 0 { return; }
      while i > 0
        invariant 0 <= i <= t
        invariant CompareDigits(arr, a.arr, t) == CompareDigits(arr, a.arr, i)
      {
        i := i - 1;
        r := arr[i] - a.arr[i];
        if r != 0 { return; }
      }
      return 0;
    }

    /** crypto.js `bnpDLShiftTo`.  A negative shift writes cells before the start of the array; into another number
        it divides by a power of the base, rounding down, but within one number it reads digits again that it has
        written, so that the highest digits repeat: that is a division if and only if they did so before.  A shift
        by more digits than there are leaves a negative length. */
    method DLShiftTo(n: int, r: BigInteger)
      requires Valid()
      modifies r
      ensures r.t == old(t) + n && r.s == old(s) && (r.Valid() <==> old(t) + n >= 0)
      ensures n >= 0 ==> r.Value() == Mul(old(Value()), B(n))
      ensures n >= 0 && old(Normal()) && old(t) > 0 ==> r.Normal()
      ensures n < 0 <= r.t && r != this ==> r.Value() == Div(old(Value()), B(-n))
      ensures n < 0 <= r.t && r == this ==>
        (r.Value() == Div(old(Value()), B(-n)) <==> Repeats(old(arr), old(t), -n))
      ensures forall k :: 0 <= k < n ==> r.arr[k] == 0
      ensures forall k :: 0 <= n <= k < r.t ==> r.arr[k] == old(arr[k - n])
      ensures n < 0 ==> forall k :: 0 <= k < r.t ==> r.arr[k] == old(Digit(arr, Source(r == this, n, t, k)))
    {
      hide *;
      ValidDigits();
      ghost var a, t0, same := arr, t, r == this;
      MoveDigits(n, r);
      var i := n - 1;
      while i >= 0
        invariant i < n && (n >= 0 ==> -1 <= i) && t == t0 && s == old(s)
        invariant forall k :: i < k < n ==> k in r.arr && r.arr[k] == 0
        invariant forall k :: n <= k < t + n && 0 <= k ==> k in r.arr && Source(same, n, t, k) in a && r.arr[k] == a[Source(same, n, t, k)]
      {
        r.arr := r.arr[i := 0];
        i := i - 1;
      }
      r.t, r.s := t + n, s;
      if r.t >= 0 {
        DLShiftDone(a, r.arr, t0, n, r.s, same);
        r.ValidIntro();
        if n < 0 && same {
          InPlaceExact(a, r.arr, t0, -n, r.s);
        }
      } else {
        r.NegativeLength();
      }
    }

    /** The first loop of `bnpDLShiftTo`. */
    method MoveDigits(n: int, r: BigInteger)
      requires Valid()
      modifies r`arr
      ensures forall k :: n <= k < t + n && 0 <= k ==>
        k in r.arr && Source(r == this, n, t, k) in old(arr) && r.arr[k] == old(arr)[Source(r == this, n, t, k)]
    {
      hide Moving;
      hide Source;
      ghost var a, same := arr, r == this;
      var i := t - 1;
      MovingStart(a, r.arr, same, n, t);
      while i >= 0
        invariant -1 <= i < t && Moving(a, arr, r.arr, same, i, n, t)
      {
        MovingStep(a, arr, r.arr, same, i, n, t);
        r.arr := r.arr[i + n := arr[i]];
        i := i - 1;
      }
      MovingEnd(a, arr, r.arr, same, n, t);
    }

    lemma ValidDigits()
      requires Valid()
      ensures t >= 0 && -1 <= s <= 0 && IsDigits(arr, 0, t) && Value() == ValueOf(arr, t, s)
      ensures Normal() <==> (t > 0 ==> t - 1 in arr && arr[t - 1] != s % DV)
    {}

    lemma NegativeLength()
      requires t < 0
      ensures !Valid()
    {}

    lemma ValidIntro()
      requires t >= 0 && -1 <= s <= 0 && IsDigits(arr, 0, t)
      ensures Valid() && Value() == ValueOf(arr, t, s)
      ensures Normal() <==> (t > 0 ==> t - 1 in arr && arr[t - 1] != s % DV)
    {}

    /** crypto.js `bnpDRShiftTo` */
    method DRShiftTo(n: nat, r: BigInteger)
      requires Valid()
      modifies r
      ensures r.Valid() && r.t == (if old(t) < n then 0 else old(t) - n) && r.s == old(s)
      ensures r.Value() == Div(old(Value()), B(n))
      ensures old(Normal()) ==> r.Normal()
      ensures forall k :: 0 <= k < r.t ==> r.arr[k] == old(arr[k + n])
    {
      ghost var a, t0 := arr, t;
      var i: int := n;
      while i < t
        invariant n <= i && t == t0 && s == old(s)
        invariant forall k :: i <= k < t ==> k in arr && arr[k] == a[k]
        invariant forall k :: 0 <= k < i - n && k < t - n ==> k in r.arr && r.arr[k] == a[k + n]
      {
        r.arr := r.arr[i - n := arr[i]];
        i := i + 1;
      }
      r.t := if t - n > 0 then t - n else 0;
      r.s := s;
      DRShiftValue(a, r.arr, t0, n, r.s);
    }

    /** crypto.js `bnpSubTo`: r = this - a; `r` may be either operand. */
    method SubTo(a: BigInteger, r: BigInteger)
      requires Valid() && a.Valid()
      modifies r
      ensures r.Normal() && r.Value() == old(Value()) - old(a.Value())
      ensures var n := if old(t) < old(a.t) then old(a.t) else old(t);
              && (old(s) == old(a.s) == 0 ==> r.t <= n)
              && SameOutside(old(r.arr), r.arr, 0, if old(s) == old(a.s) == 0 then n else n + 1)
              && forall k :: r.t <= k < n ==> k in r.arr && r.arr[k] == r.s % DV
    {
      hide Val;
      hide B;
      hide Mul;
      hide ValueOf;
      var m := if a.t < t then a.t else t;
      ghost var x, y := arr, a.arr;
      var c := SubColumns(a, r, m);
      ghost var r1, c1 := Val(r.arr, 0, m), c;
      if a.t < t {
        ghost var now := arr;
        c := AddTail(r, a.t, t, c - a.s);
        JoinSubLong(x, t, s, y, a.t, a.s, now, r1, c1, Val(r.arr, 0, t), c);
        c := c + s;
      } else {
        ghost var now := a.arr;
        c := a.SubTail(r, t, a.t, c + s);
        JoinSubShort(x, t, s, y, a.t, a.s, now, r1, c1, Val(r.arr, 0, a.t), c);
        c := c - a.s;
      }
      r.Finish(if a.t < t then t else a.t, c);
    }

    /** The first loop of `bnpSubTo`: the columns where both operands have a digit. */
    method SubColumns(a: BigInteger, r: BigInteger, m: nat) returns (c: int)
      requires Valid() && a.Valid() && m <= t && m <= a.t
      modifies r`arr
      ensures Valid() && a.Valid()
      ensures -1 <= c <= 0 && IsDigits(r.arr, 0, m) && SameOutside(old(r.arr), r.arr, 0, m)
      ensures Val(r.arr, 0, m) + Mul(c, B(m)) == old(Val(arr, 0, m) - Val(a.arr, 0, m))
    {
      hide Val;
      hide B;
      hide Mul;
      ghost var x, y := arr, a.arr;
      c := 0;
      var i := 0;
      ColumnStart(x, y, r.arr);
      while i < m
        invariant 0 <= i <= m && -1 <= c <= 0
        invariant KeptFrom(arr, x, i, t) && KeptFrom(a.arr, y, i, a.t)
        invariant IsDigits(r.arr, 0, i) && SameOutside(old(r.arr), r.arr, 0, i)
        invariant Val(r.arr, 0, i) + Mul(c, B(i)) == Val(x, 0, i) - Val(y, 0, i)
      {
        ghost var before, cin := r.arr, c;
        c := c + arr[i] - a.arr[i];
        r.arr := r.arr[i := Mask(c, DV)];
        c := Sar(c, DV);
        Column(before, r.arr, i, cin, x[i] - y[i], c);
        SubColumn(x, y, i);
        i := i + 1;
      }
    }

    /** A later loop of `bnpSubTo` and `bnpAddTo`: the columns where only this has a digit. */
    method AddTail(r: BigInteger, from: nat, n: nat, c0: int) returns (c: int)
      requires Valid() && from <= n == t && -2 <= c0 <= 1 && IsDigits(r.arr, 0, from)
      modifies r`arr
      ensures (if c0 < -1 then -2 else -1) <= c <= (if c0 > 0 then 1 else 0)
      ensures c0 >= 0 ==> c >= 0
      ensures IsDigits(r.arr, 0, n) && SameOutside(old(r.arr), r.arr, from, n)
      ensures Val(r.arr, 0, n) + Mul(c, B(n))
           == old(Val(r.arr, 0, from)) + Mul(c0, B(from)) + Mul(B(from), old(Val(arr, from, n - from)))
    {
      hide Val;
      hide B;
      hide Mul;
      ghost var x := arr;
      c := c0;
      var i := from;
      while i < n
        invariant from <= i <= n
        invariant (if c0 < -1 then -2 else -1) <= c <= (if c0 > 0 then 1 else 0)
        invariant c0 >= 0 ==> c >= 0
        invariant KeptFrom(arr, x, i, n)
        invariant IsDigits(r.arr, 0, i) && SameOutside(old(r.arr), r.arr, from, i)
        invariant Val(r.arr, 0, i) + Mul(c, B(i))
               == old(Val(r.arr, 0, from)) + Mul(c0, B(from)) + Val(x, 0, i) - Val(x, 0, from)
      {
        ghost var before, cin := r.arr, c;
        c := c + arr[i];
        r.arr := r.arr[i := Mask(c, DV)];
        c := Sar(c, DV);
        Column(before, r.arr, i, cin, x[i], c);
        ValStep(x, 0, i);
        i := i + 1;
      }
      ValSplit(x, 0, from, n - from);
    }

    /** A later loop of `bnpSubTo`: the columns where only the subtrahend, here this, has a digit. */
    method SubTail(r: BigInteger, from: nat, n: nat, c0: int) returns (c: int)
      requires Valid() && from <= n == t && -2 <= c0 <= 0 && IsDigits(r.arr, 0, from)
      modifies r`arr
      ensures (if c0 < -1 then -2 else -1) <= c <= 0
      ensures IsDigits(r.arr, 0, n) && SameOutside(old(r.arr), r.arr, from, n)
      ensures Val(r.arr, 0, n) + Mul(c, B(n))
           == old(Val(r.arr, 0, from)) + Mul(c0, B(from)) - Mul(B(from), old(Val(arr, from, n - from)))
    {
      hide Val;
      hide B;
      hide Mul;
      ghost var x := arr;
      c := c0;
      var i := from;
      while i < n
        invariant from <= i <= n && (if c0 < -1 then -2 else -1) <= c <= 0
        invariant KeptFrom(arr, x, i, n)
        invariant IsDigits(r.arr, 0, i) && SameOutside(old(r.arr), r.arr, from, i)
        invariant Val(r.arr, 0, i) + Mul(c, B(i))
               == old(Val(r.arr, 0, from)) + Mul(c0, B(from)) - (Val(x, 0, i) - Val(x, 0, from))
      {
        ghost var before, cin := r.arr, c;
        c := c - arr[i];
        r.arr := r.arr[i := Mask(c, DV)];
        c := Sar(c, DV);
        Column(before, r.arr, i, cin, -x[i], c);
        ValStep(x, 0, i);
        MulNeg(x[i], B(i));
        i := i + 1;
      }
      ValSplit(x, 0, from, n - from);
    }

    /** crypto.js `bnpAddTo`: r = this + a; `r` may be either operand. */
    method AddTo(a: BigInteger, r: BigInteger)
      requires Valid() && a.Valid()
      modifies r
      ensures r.Normal() && r.Value() == old(Value()) + old(a.Value())
    {
      hide Val;
      hide B;
      hide Mul;
      hide ValueOf;
      var m := if a.t < t then a.t else t;
      ghost var x, y := arr, a.arr;
      var c := AddColumns(a, r, m);
      ghost var r1, c1 := Val(r.arr, 0, m), c;
      if a.t < t {
        ghost var now := arr;
        c := AddTail(r, a.t, t, c + a.s);
        JoinAdd(x, t, s, y, a.t, a.s, now, r1, c1, Val(r.arr, 0, t), c);
        c := c + s;
      } else {
        ghost var now := a.arr;
        c := a.AddTail(r, t, a.t, c + s);
        JoinAdd(y, a.t, a.s, x, t, s, now, r1, c1, Val(r.arr, 0, a.t), c);
        c := c + a.s;
      }
      r.Finish(if a.t < t then t else a.t, c);
    }

    /** The first loop of `bnpAddTo`. */
    method AddColumns(a: BigInteger, r: BigInteger, m: nat) returns (c: int)
      requires Valid() && a.Valid() && m <= t && m <= a.t
      modifies r`arr
      ensures Valid() && a.Valid()
      ensures 0 <= c <= 1 && IsDigits(r.arr, 0, m) && SameOutside(old(r.arr), r.arr, 0, m)
      ensures Val(r.arr, 0, m) + Mul(c, B(m)) == old(Val(arr, 0, m) + Val(a.arr, 0, m))
    {
      hide Val;
      hide B;
      hide Mul;
      ghost var x, y := arr, a.arr;
      c := 0;
      var i := 0;
      ColumnStart(x, y, r.arr);
      while i < m
        invariant 0 <= i <= m && 0 <= c <= 1
        invariant KeptFrom(arr, x, i, t) && KeptFrom(a.arr, y, i, a.t)
        invariant IsDigits(r.arr, 0, i) && SameOutside(old(r.arr), r.arr, 0, i)
        invariant Val(r.arr, 0, i) + Mul(c, B(i)) == Val(x, 0, i) + Val(y, 0, i)
      {
        ghost var before, cin := r.arr, c;
        c := c + arr[i] + a.arr[i];
        r.arr := r.arr[i := Mask(c, DV)];
        c := Sar(c, DV);
        Column(before, r.arr, i, cin, x[i] + y[i], c);
        ValStep(x, 0, i);
        ValStep(y, 0, i);
        MulAdd(x[i], y[i], B(i));
        i := i + 1;
      }
    }

    /** The end of `subTo` and of `addTo`: what is left of the carry becomes a digit and the sign. */
    method Finish(n: nat, c: int)
      requires IsDigits(arr, 0, n) && -2 <= c <= 1
      modifies this
      ensures Normal() && Value() == old(Val(arr, 0, n)) + Mul(c, B(n))
      ensures SameOutside(old(arr), arr, 0, if -1 <= c <= 0 then n else n + 1)
      ensures -1 <= c <= 0 ==> t <= n
      ensures forall k :: t <= k < n ==> k in arr && arr[k] == s % DV
    {
      hide Val;
      hide B;
      hide Mul;
      var i := n;
      ghost var a := arr;
      s := if c < 0 then -1 else 0;
      if c < -1 {
        arr := arr[i := DV + c];
        i := i + 1;
      } else if c > 0 {
        arr := arr[i := c];
        i := i + 1;
      }
      t := i;
      ValFrame(a, arr, 0, n);
      if i > n {
        ValStep(arr, 0, n);
        BStep(n);
        TopDigit(arr[n], s, c, B(n));
      }
      Clamp();
    }
  }

  ghost predicate KeptFrom(now: Cells, before: Cells, i: int, n: int) {
    forall k :: i <= k < n ==> k in now && k in before && now[k] == before[k]
  }

  lemma ValueOfDef(a: Cells, t: nat, s: int)
    ensures ValueOf(a, t, s) == Val(a, 0, t) + Mul(s, B(t))
  {}

  lemma ColumnStart(x: Cells, y: Cells, r: Cells)
    ensures Val(x, 0, 0) == Val(y, 0, 0) == Val(r, 0, 0) == 0 && B(0) == 1 && Mul(0, 1) == 0
  {}

  /** Adding `x` to column `i`, with carry in and out, adds `Mul(x, B(i))`. */
  lemma Column(before: Cells, after: Cells, i: nat, cin: int, x: int, cout: int)
    requires after == before[i := (cin + x) % DV] && cout == (cin + x) / DV
    ensures Val(after, 0, i + 1) + Mul(cout, B(i + 1)) == Val(before, 0, i) + Mul(cin, B(i)) + Mul(x, B(i))
  {
    hide Val;
    hide B;
    hide Mul;
    ValFrame(before, after, 0, i);
    ValStep(after, 0, i);
    BStep(i);
    Carry((cin + x) % DV, cout, cin, x, B(i));
  }

  lemma Carry(digit: int, cout: int, cin: int, x: int, p: int)
    requires digit + cout * DV == cin + x
    ensures Mul(digit, p) + Mul(cout, DV * p) == Mul(cin, p) + Mul(x, p)
  {
    assert (digit + cout * DV) * p == digit * p + cout * (DV * p);
    assert (cin + x) * p == cin * p + x * p;
  }

  lemma SubColumn(x: Cells, y: Cells, i: nat)
    ensures Val(x, 0, i + 1) - Val(y, 0, i + 1) == Val(x, 0, i) - Val(y, 0, i) + Mul(Digit(x, i) - Digit(y, i), B(i))
  {
    hide Val;
    hide B;
    hide Mul;
    ValStep(x, 0, i);
    ValStep(y, 0, i);
    MulAdd(Digit(x, i), -Digit(y, i), B(i));
    MulNeg(Digit(y, i), B(i));
  }

  /** The carry after the common columns and the carry after the tail make up the sum of two
      operands: `x1` of `x` below `p`, all of `y` below `p`, signs `xs` at `q` and `ys` at `p`. */
  lemma Join(p: int, q: int, r1: int, c1: int, x1: int, x: int, xs: int, y: int, ys: int, r: int, c: int)
    requires r1 + Mul(c1, p) == x1 + y
    requires r + Mul(c, q) == r1 + Mul(c1 + ys, p) + (x - x1)
    ensures r + Mul(c + xs, q) == (x + Mul(xs, q)) + (y + Mul(ys, p))
  {
    MulAdd(c1, ys, p);
    MulAdd(c, xs, q);
  }

  /** `bnpAddTo` with the shorter operand `y`: `now` holds the tail of `x` when it is reached. */
  lemma JoinAdd(x: Cells, xt: nat, xs: int, y: Cells, yt: nat, ys: int, now: Cells, r1: int, c1: int, r: int, c: int)
    requires yt <= xt && KeptFrom(now, x, yt, xt)
    requires r1 + Mul(c1, B(yt)) == Val(x, 0, yt) + Val(y, 0, yt)
    requires r + Mul(c, B(xt)) == r1 + Mul(c1 + ys, B(yt)) + Mul(B(yt), Val(now, yt, xt - yt))
    ensures r + Mul(c + xs, B(xt)) == ValueOf(x, xt, xs) + ValueOf(y, yt, ys)
  {
    hide Val;
    hide B;
    hide Mul;
    ValSplit(x, 0, yt, xt - yt);
    ValFrame(x, now, yt, xt - yt);
    Join(B(yt), B(xt), r1, c1, Val(x, 0, yt), Val(x, 0, xt), xs, Val(y, 0, yt), ys, r, c);
  }

  /** `bnpSubTo` with the shorter subtrahend. */
  lemma JoinSubLong(x: Cells, xt: nat, xs: int, y: Cells, yt: nat, ys: int, now: Cells, r1: int, c1: int, r: int, c: int)
    requires yt <= xt && KeptFrom(now, x, yt, xt)
    requires r1 + Mul(c1, B(yt)) == Val(x, 0, yt) - Val(y, 0, yt)
    requires r + Mul(c, B(xt)) == r1 + Mul(c1 - ys, B(yt)) + Mul(B(yt), Val(now, yt, xt - yt))
    ensures r + Mul(c + xs, B(xt)) == ValueOf(x, xt, xs) - ValueOf(y, yt, ys)
  {
    hide Val;
    hide B;
    hide Mul;
    ValSplit(x, 0, yt, xt - yt);
    ValFrame(x, now, yt, xt - yt);
    Join(B(yt), B(xt), r1, c1, Val(x, 0, yt), Val(x, 0, xt), xs, -Val(y, 0, yt), -ys, r, c);
    MulNeg(ys, B(yt));
  }

  /** `bnpSubTo` with the longer subtrahend. */
  lemma JoinSubShort(x: Cells, xt: nat, xs: int, y: Cells, yt: nat, ys: int, now: Cells, r1: int, c1: int, r: int, c: int)
    requires xt <= yt && KeptFrom(now, y, xt, yt)
    requires r1 + Mul(c1, B(xt)) == Val(x, 0, xt) - Val(y, 0, xt)
    requires r + Mul(c, B(yt)) == r1 + Mul(c1 + xs, B(xt)) - Mul(B(xt), Val(now, xt, yt - xt))
    ensures r + Mul(c - ys, B(yt)) == ValueOf(x, xt, xs) - ValueOf(y, yt, ys)
  {
    hide Val;
    hide B;
    hide Mul;
    ValSplit(y, 0, xt, yt - xt);
    ValFrame(y, now, xt, yt - xt);
    Join(B(xt), B(yt), r1, c1, -Val(y, 0, xt), -Val(y, 0, yt), -ys, Val(x, 0, xt), xs, r, c);
    MulNeg(ys, B(yt));
  }

  lemma TopDigit(d: int, s: int, c: int, p: int)
    requires d + s * DV == c
    ensures Mul(d, p) + Mul(s, DV * p) == Mul(c, p)
  {
    Carry(d, s, c, 0, p);
  }

  /** The digit that a shift by `n` leaves in cell `k`: that of cell `k - n` or, for a negative shift within one
      number, the highest at a distance that is a multiple of `-n`. */
  ghost function Source(same: bool, n: int, t: nat, k: int): int
    requires k < t + n
    decreases t - k
  {
    if same && n < 0 && k - n < t + n then Source(same, n, t, k - n) else k - n
  }

  lemma {:induction false} SourceRange(same: bool, n: int, t: nat, k: int)
    requires k < t + n
    ensures k - n <= Source(same, n, t, k) < t
    decreases t - k
  {
    if same && n < 0 && k - n < t + n {
      SourceRange(same, n, t, k - n);
    }
  }

  lemma SourceIs(same: bool, n: int, t: nat)
    ensures !same || n >= 0 ==> forall k :: k < t + n ==> Source(same, n, t, k) == k - n
    ensures forall k :: 0 <= k < t + n && n <= k ==> 0 <= Source(same, n, t, k) < t
  {
    forall k | 0 <= k < t + n && n <= k
      ensures 0 <= Source(same, n, t, k) < t
    {
      SourceRange(same, n, t, k);
    }
  }

  /** The digits above `i` have been moved; those that are still to be read are as they were, or as they were
      moved over. */
  ghost predicate Moving(a: Cells, now: Cells, r: Cells, same: bool, i: int, n: int, t: nat) {
    && (same ==> now == r)
    && (forall k :: 0 <= k < t ==> k in a)
    && (forall k :: 0 <= k <= i && k < t && (!same || n >= 0 || k <= i + n || k >= t + n) ==> k in now && now[k] == a[k])
    && (forall k :: i + n < k < t + n ==> Moved(a, r, same, n, t, k))
  }

  ghost predicate Moved(a: Cells, r: Cells, same: bool, n: int, t: nat, k: int)
    requires k < t + n
  {
    k in r && Source(same, n, t, k) in a && r[k] == a[Source(same, n, t, k)]
  }

  lemma MovingStart(a: Cells, r: Cells, same: bool, n: int, t: nat)
    requires IsDigits(a, 0, t) && (same ==> a == r)
    ensures Moving(a, a, r, same, t - 1, n, t)
  {}

  lemma MovingStep(a: Cells, now: Cells, r: Cells, same: bool, i: int, n: int, t: nat)
    requires Moving(a, now, r, same, i, n, t) && 0 <= i < t
    ensures i in now
    ensures var r' := r[i + n := now[i]]; Moving(a, if same then r' else now, r', same, i - 1, n, t)
  {
    if same && n < 0 && i < t + n {
      assert Moved(a, r, same, n, t, i);
    }
    var r' := r[i + n := now[i]];
    forall k | i - 1 + n < k < t + n
      ensures Moved(a, r', same, n, t, k)
    {
      if k != i + n {
        assert Moved(a, r, same, n, t, k);
      }
    }
  }

  lemma MovingEnd(a: Cells, now: Cells, r: Cells, same: bool, n: int, t: nat)
    requires Moving(a, now, r, same, -1, n, t)
    ensures forall k :: n <= k < t + n && 0 <= k ==> k in r && Source(same, n, t, k) in a && r[k] == a[Source(same, n, t, k)]
  {
    forall k | n <= k < t + n && 0 <= k
      ensures k in r && Source(same, n, t, k) in a && r[k] == a[Source(same, n, t, k)]
    {
      assert Moved(a, r, same, n, t, k);
    }
  }

  lemma DLShiftDone(a: Cells, r: Cells, t: nat, n: int, s: int, same: bool)
    requires IsDigits(a, 0, t) && -1 <= s <= 0 && t + n >= 0
    requires forall k :: 0 <= k < n ==> k in r && r[k] == 0
    requires forall k :: n <= k < t + n && 0 <= k ==> k in r && Source(same, n, t, k) in a && r[k] == a[Source(same, n, t, k)]
    ensures IsDigits(r, 0, t + n)
    ensures n >= 0 ==> ValueOf(r, t + n, s) == Mul(ValueOf(a, t, s), B(n))
    ensures n < 0 && !same ==> ValueOf(r, t + n, s) == Div(ValueOf(a, t, s), B(-n))
    ensures forall k :: 0 <= n <= k < t + n ==> k in r && k - n in a && r[k] == a[k - n]
    ensures n < 0 ==> forall k :: 0 <= k < t + n ==> k in r && r[k] == Digit(a, Source(same, n, t, k))
  {
    SourceIs(same, n, t);
    hide Val;
    hide B;
    hide ValueOf;
    hide Mul;
    hide Div;
    hide Source;
    forall k | 0 <= k < t + n
      ensures k in r && 0 <= r[k] < DV
    {
      if n <= k {
        assert 0 <= Source(same, n, t, k) < t;
      }
    }
    if n >= 0 {
      DLShiftValue(a, r, t, n, s);
    } else if !same {
      DRShiftValue(a, r, t, -n, s);
    }
  }

  /** From digit `m` on, each is the same as the one `m` places further up. */
  ghost predicate Repeats(a: Cells, t: int, m: int) {
    forall k :: m <= k < t - m ==> Repeated(a, k, m)
  }

  ghost predicate Repeated(a: Cells, k: int, m: int) {
    Digit(a, k) == Digit(a, k + m)
  }

  /** The lowest `n` cells are the cells of `a` from `m` on. */
  ghost function Down(a: Cells, m: int, n: nat): (q: Cells)
    ensures forall k :: 0 <= k < n ==> k in q && q[k] == Digit(a, k + m)
  {
    if n == 0 then map[] else Down(a, m, n - 1)[n - 1 := Digit(a, n - 1 + m)]
  }

  /** The digits that come to rest are those of the quotient if and only if the digits repeat. */
  lemma InPlaceExact(a: Cells, r: Cells, t: nat, m: int, s: int)
    requires IsDigits(a, 0, t) && -1 <= s <= 0 && 0 < m <= t && IsDigits(r, 0, t - m)
    requires forall k :: 0 <= k < t - m ==> r[k] == Digit(a, Source(true, -m, t, k))
    ensures ValueOf(r, t - m, s) == Div(ValueOf(a, t, s), B(m)) <==> Repeats(a, t, m)
  {
    hide *;
    var n: nat := t - m;
    var q := Down(a, m, n);
    DownDigits(a, q, t, m);
    DRShiftValue(a, q, t, m, s);
    SameValue(r, q, n, s);
    if Repeats(a, t, m) {
      forall k | 0 <= k < n
        ensures r[k] == q[k]
      {
        SourceRepeats(a, t, m, k);
      }
    }
    if forall k :: 0 <= k < n ==> r[k] == q[k] {
      SameRepeats(a, r, q, t, m);
    }
  }

  lemma DownDigits(a: Cells, q: Cells, t: nat, m: int)
    requires IsDigits(a, 0, t) && 0 < m <= t && forall k :: 0 <= k < t - m ==> k in q && q[k] == Digit(a, k + m)
    ensures IsDigits(q, 0, t - m) && forall k :: 0 <= k < t - m ==> k in q && q[k] == a[k + m]
  {}

  lemma SameValue(r: Cells, q: Cells, n: nat, s: int)
    requires IsDigits(r, 0, n) && IsDigits(q, 0, n)
    ensures forall k :: 0 <= k < n ==> k in r && k in q
    ensures ValueOf(r, n, s) == ValueOf(q, n, s) <==> forall k :: 0 <= k < n ==> r[k] == q[k]
  {
    if ValueOf(r, n, s) == ValueOf(q, n, s) {
      ValUnique(r, q, 0, n);
    }
    if forall k :: 0 <= k < n ==> r[k] == q[k] {
      ValFrame(r, q, 0, n);
    }
  }

  lemma {:induction false} SourceRepeats(a: Cells, t: nat, m: int, k: int)
    requires 0 < m && 0 <= k < t - m && Repeats(a, t, m)
    ensures Digit(a, Source(true, -m, t, k)) == Digit(a, k + m)
    decreases t - k
  {
    if k + m < t - m {
      SourceRepeats(a, t, m, k + m);
      assert Repeated(a, k + m, m);
    }
  }

  lemma SameRepeats(a: Cells, r: Cells, q: Cells, t: nat, m: int)
    requires 0 < m <= t && IsDigits(r, 0, t - m) && IsDigits(q, 0, t - m)
    requires forall k :: 0 <= k < t - m ==> r[k] == Digit(a, Source(true, -m, t, k))
    requires forall k :: 0 <= k < t - m ==> q[k] == Digit(a, k + m)
    requires forall k :: 0 <= k < t - m ==> r[k] == q[k]
    ensures Repeats(a, t, m)
  {
    forall k | m <= k < t - m
      ensures Repeated(a, k, m)
    {
      assert r[k] == q[k] && r[k - m] == q[k - m];
      assert Source(true, -m, t, k - m) == Source(true, -m, t, k);
    }
  }

  /** A failing input, three different digits shifted down by one in place: 1 + 2 * 2^28 + 3 * 2^56 becomes
      3 + 3 * 2^28. */
  method RepeatedDigit() returns (x: BigInteger, ghost before: int)
    ensures before == ValueOf(map[0 := 1, 1 := 2, 2 := 3], 3, 0)
    ensures x.Valid() && x.t == 2 && x.s == 0 && x.arr[0] == 3 && x.arr[1] == 3 && x.Value() != Div(before, B(1))
  {
    hide *;
    x := new BigInteger();
    ghost var a: Cells := map[0 := 1, 1 := 2, 2 := 3];
    OneTwoThree(a);
    x.arr, x.t := map[0 := 1, 1 := 2, 2 := 3], 3;
    x.ValidIntro();
    before := x.Value();
    x.DLShiftTo(-1, x);
    x.ValidDigits();
  }

  lemma OneTwoThree(a: Cells)
    requires a == map[0 := 1, 1 := 2, 2 := 3]
    ensures IsDigits(a, 0, 3) && !Repeats(a, 3, 1)
    ensures forall r: Cells :: IsDigits(r, 0, 2) ==> 0 in r && 1 in r
    ensures Digit(a, Source(true, -1, 3, 0)) == 3 && Digit(a, Source(true, -1, 3, 1)) == 3
  {
    assert !Repeated(a, 1, 1);
    assert Source(true, -1, 3, 1) == 2;
  }

  lemma DLShiftValue(a: Cells, r: Cells, t: nat, n: nat, s: int)
    requires IsDigits(a, 0, t)
    requires forall k :: 0 <= k < n ==> k in r && r[k] == 0
    requires forall k :: n <= k < t + n ==> k in r && r[k] == a[k - n]
    ensures ValueOf(r, t + n, s) == Mul(ValueOf(a, t, s), B(n))
  {
    hide Val;
    hide B;
    hide Mul;
    ValSplit(r, 0, n, t);
    ValZero(r, 0, n);
    ValShift(r, a, n, 0, t);
    BAdd(n, t);
    ShiftSign(B(n), B(t), Val(a, 0, t), s);
  }

  lemma DRShiftValue(a: Cells, r: Cells, t: nat, n: nat, s: int)
    requires IsDigits(a, 0, t) && -1 <= s <= 0
    requires forall k :: 0 <= k < t - n ==> k in r && r[k] == a[k + n]
    ensures ValueOf(r, if t < n then 0 else t - n, s) == Div(ValueOf(a, t, s), B(n))
  {
    hide Val;
    hide B;
    hide Mul;
    hide Div;
    hide Mod;
    if n <= t {
      var m := t - n;
      ValSplit(a, 0, n, m);
      ValBound(a, 0, n);
      ValShift(a, r, n, 0, m);
      BAdd(n, m);
      ShiftSign(B(n), B(m), Val(a, n, m), s);
      FloorDiv(ValueOf(a, t, s), B(n), ValueOf(r, m, s), Val(a, 0, n));
    } else {
      ValBound(a, 0, t);
      BMonotonic(t, n);
      MulUnit(B(t));
      MulUnit(B(n));
      if s == 0 {
        FloorDiv(ValueOf(a, t, 0), B(n), 0, Val(a, 0, t));
      } else {
        FloorDiv(ValueOf(a, t, -1), B(n), -1, Val(a, 0, t) - B(t) + B(n));
      }
      ColumnStart(r, r, r);
      MulUnit(s);
    }
  }

  lemma ClampStep(d: int, s: int, p: int)
    requires -1 <= s <= 0 && d == s % DV
    ensures Mul(d, p) + Mul(s, DV * p) == Mul(s, p)
  {
    if s == 0 {
    } else {
      assert d == DM;
      assert DM * p - DV * p == -p;
    }
  }

  lemma ShiftSign(p: int, q: int, v: int, s: int)
    ensures Mul(p, v) + Mul(s, Mul(p, q)) == Mul(v + Mul(s, q), p)
  {
    assert p * v + s * (p * q) == (v + s * q) * p;
  }

  ghost function CompareDigits(a: Cells, b: Cells, n: nat): int {
    if n == 0 then 0
    else if Digit(a, n - 1) != Digit(b, n - 1) then Digit(a, n - 1) - Digit(b, n - 1)
    else CompareDigits(a, b, n - 1)
  }

  ghost function CompareResult(a: Cells, at: nat, sa: int, b: Cells, bt: nat, sb: int): int {
    if sa != sb then sa - sb
    else if at != bt then at - bt
    else CompareDigits(a, b, at)
  }

  /** The body of the loop of `am3`, on 14-bit halves: no intermediate leaves the signed 32-bit
      range, and nothing is lost. */
  method AmDigit(xl: int, xh: int, d: int, w: int, c: int) returns (c': int, digit: int)
    requires 0 <= xl < 0x4000 && 0 <= xh < 0x8000
    requires 0 <= d < DV && 0 <= w < DV && 0 <= c < 3 * DV
    ensures 0 <= digit < DV && 0 <= c' < 3 * DV
    ensures digit + c' * DV == Mul(xh * 0x4000 + xl, d) + w + c
  {
    var l, h := Mask(d, 0x4000), Sar(d, 0x4000);
    Expand(xh, xl, h, l);
    MulBound(xh, 0x7fff, l, 0x3fff);
    MulBound(h, 0x3fff, xl, 0x3fff);
    MulBound(xl, 0x3fff, l, 0x3fff);
    MulBound(xh, 0x7fff, h, 0x3fff);
    var m := xh * l + h * xl;
    assert 0 <= m < TWO31;
    l := xl * l + Shl(Mask(m, 0x4000), 0x4000) + w + c;
    assert 0 <= l < TWO31;
    c' := Sar(l, DV) + Sar(m, 0x4000) + xh * h;
    digit := Mask(l, DV);
  }

  lemma MulBound(x: int, xMax: int, y: int, yMax: int)
    requires 0 <= x <= xMax && 0 <= y <= yMax
    ensures 0 <= x * y <= xMax * yMax
  {
    MulLe(x, xMax, y);
    MulLe(y, yMax, xMax);
  }

  lemma Expand(xh: int, xl: int, dh: int, dl: int)
    ensures (xh * 0x4000 + xl) * (dh * 0x4000 + dl) == xh * dh * DV + (xh * dl + dh * xl) * 0x4000 + xl * dl
  {}

  lemma AmStart(a: Cells, i: int, w: Cells, w': Cells, j: int)
    ensures Val(a, i, 0) == Val(w, j, 0) == Val(w', j, 0) == 0 && B(0) == 1
    ensures forall x :: Mul(x, 0) == 0 && Mul(x, 1) == x
  {}

  lemma AmCarry(x: int, a: int, d: int, w: int, wd: int, v: int, vd: int, c0: int, cin: int, cout: int, p: int)
    requires vd + cout * DV == Mul(x, d) + wd + cin
    requires v + Mul(cin, p) == w + Mul(x, a) + c0
    ensures v + Mul(vd, p) + Mul(cout, DV * p) == w + Mul(wd, p) + Mul(x, a + Mul(d, p)) + c0
  {
    assert vd * p + cout * (DV * p) == (vd + cout * DV) * p;
    assert (x * d + wd + cin) * p == x * (d * p) + wd * p + cin * p;
    assert x * (a + d * p) == x * a + x * (d * p);
  }

  lemma NormalIsValid(x: BigInteger)
    requires x.Normal()
    ensures x.Valid()
  {}
}
