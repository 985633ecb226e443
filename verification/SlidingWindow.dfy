/** Modular exponentiation with a sliding window over the exponent's bits. */
module SlidingWindow {
  import opened JsNumber
  import opened Digits
  import opened BigIntegers
  import opened Shifts
  import opened Congruence
  import opened Reducers
  import opened Reductions
  import opened Barretts
  import opened Windows
  import opened Exponents
  import opened Multiply
  import Compare

  /** `g[n]` stands for the `n`-th power, for each odd `n` up to `km`; its numbers are in `own`. */
  ghost predicate IsTable(z: Reducer, g: map<int, BigInteger>, own: set<BigInteger>, km: int, v: int)
    reads z.m, own
  {
    forall n :: 1 <= n <= km && n % 2 == 1 ==> n in g && g[n] in own && StandsFor(z, g[n], Power(v, n))
  }

  /** What the reducer overwrites is neither its own constants nor in the table. */
  ghost predicate Separate(z: Reducer, own: set<BigInteger>, scratch: set<BigInteger>) {
    scratch == Scratch(z) && Parts(z) !! scratch && own !! scratch && z.m in Parts(z)
  }

  /** The odd powers below `n` are in the table, and `g2` is the square that leads to the next one. */
  ghost predicate Building(z: Reducer, g: map<int, BigInteger>, g2: BigInteger, n: int, v: int,
                           own: set<BigInteger>, scratch: set<BigInteger>)
    reads z.m, own, g2
  {
    && Separate(z, own, scratch) && g2 !in scratch && StandsFor(z, g2, Power(v, 2))
    && IsTable(z, g, own, n - 1, v)
  }

  method NextPower(z: Reducer, g: map<int, BigInteger>, g2: BigInteger, n: int, ghost v: int,
                   ghost own: set<BigInteger>, ghost scratch: set<BigInteger>)
    returns (gn: BigInteger)
    requires ValidReducer(z) && n >= 3 && n % 2 == 1 && Building(z, g, g2, n, v, own, scratch)
    modifies scratch
    ensures ValidReducer(z) && Building(z, g[n := gn], g2, n + 2, v, own + {gn}, scratch) && fresh(gn)
  {
    hide Power;
    hide StandsFor;
    hide ValidReducer;
    hide IsTable;
    hide Building;
    hide Separate;
    hide Scratch;
    PowerAdd(v, 2, n - 2);
    BuildingParts(z, g, g2, n, v, own, scratch);
    TableAt(z, g, own, n - 1, v, n - 2);
    ghost var parts := Parts(z);
    gn := new BigInteger();
    assert gn !in parts && gn !in scratch;
    MulTo(z, g2, g[n - 2], gn, Power(v, 2), Power(v, n - 2));
    TableGrows(z, g, own, n, v, gn);
    BuildingIntro(z, g[n := gn], g2, n + 2, v, own + {gn}, scratch);
  }

  lemma BuildingParts(z: Reducer, g: map<int, BigInteger>, g2: BigInteger, n: int, v: int, own: set<BigInteger>,
                      scratch: set<BigInteger>)
    requires Building(z, g, g2, n, v, own, scratch)
    ensures Separate(z, own, scratch) && g2 !in scratch && StandsFor(z, g2, Power(v, 2)) && IsTable(z, g, own, n - 1, v)
    ensures scratch == Scratch(z) && Parts(z) !! scratch && own !! scratch && z.m in Parts(z)
  {}

  lemma BuildingIntro(z: Reducer, g: map<int, BigInteger>, g2: BigInteger, n: int, v: int, own: set<BigInteger>,
                      scratch: set<BigInteger>)
    requires scratch == Scratch(z) && Parts(z) !! scratch && own !! scratch && z.m in Parts(z)
    requires g2 !in scratch && StandsFor(z, g2, Power(v, 2)) && IsTable(z, g, own, n - 1, v)
    ensures Building(z, g, g2, n, v, own, scratch)
  {}

  lemma TableAt(z: Reducer, g: map<int, BigInteger>, own: set<BigInteger>, km: int, v: int, n: int)
    requires IsTable(z, g, own, km, v) && 1 <= n <= km && n % 2 == 1
    ensures n in g && g[n] in own && StandsFor(z, g[n], Power(v, n))
  {}

  lemma TableGrows(z: Reducer, g: map<int, BigInteger>, own: set<BigInteger>, n: int, v: int, gn: BigInteger)
    requires n % 2 == 1 && n >= 3 && IsTable(z, g, own, n - 1, v) && StandsFor(z, gn, Power(v, n))
    ensures IsTable(z, g[n := gn], own + {gn}, n + 1, v)
  {
    hide Power;
    hide StandsFor;
  }

  lemma TableStart(z: Reducer, g1: BigInteger, v: int)
    requires StandsFor(z, g1, v)
    ensures IsTable(z, map[1 := g1], {g1}, 1, v) && IsTable(z, map[1 := g1], {g1}, 2, v)
  {
    PowerOne(v);
    hide Power;
    hide StandsFor;
  }

  lemma TableEnd(z: Reducer, g: map<int, BigInteger>, own: set<BigInteger>, n: int, v: int, km: int)
    requires IsTable(z, g, own, n, v) && km <= n
    ensures IsTable(z, g, own, km, v)
  {
    hide Power;
    hide StandsFor;
  }

  /** The precomputation of `bnModPow`: the odd powers up to `km`. */
  method PowerTable(z: Reducer, x: BigInteger, k: nat, km: int, ghost scratch: set<BigInteger>)
    returns (g: map<int, BigInteger>, ghost own: set<BigInteger>)
    requires ValidReducer(z) && x.Normal() && Separate(z, {x}, scratch) && km >= 1 && (k > 1 || km == 1)
    modifies scratch
    ensures ValidReducer(z) && IsTable(z, g, own, km, x.Value()) && Separate(z, own, scratch)
    ensures fresh(own - {x})
  {
    ghost var v := x.Value();
    hide StandsFor;
    hide ValidReducer;
    hide IsTable;
    hide ValueOf;
    hide Scratch;
    var g1 := Convert(z, x);
    g := map[1 := g1];
    own := {g1};
    TableStart(z, g1, v);
    if k > 1 {
      g, own := OddPowers(z, g1, km, v, scratch);
    }
  }

  method OddPowers(z: Reducer, g1: BigInteger, km: int, ghost v: int, ghost scratch: set<BigInteger>)
    returns (g: map<int, BigInteger>, ghost own: set<BigInteger>)
    requires ValidReducer(z) && Separate(z, {g1}, scratch) && km >= 1 && StandsFor(z, g1, v)
    modifies scratch
    ensures ValidReducer(z) && IsTable(z, g, own, km, v) && Separate(z, own, scratch)
    ensures fresh(own - {g1})
  {
    PowerOne(v);
    PowerDouble(v, 1);
    hide StandsFor;
    hide ValidReducer;
    hide IsTable;
    hide Power;
    hide Scratch;
    var g2 := new BigInteger();
    SqrTo(z, g1, g2, v);
    g, own := LaterPowers(z, g1, g2, km, v, scratch);
  }

  method LaterPowers(z: Reducer, g1: BigInteger, g2: BigInteger, km: int, ghost v: int, ghost scratch: set<BigInteger>)
    returns (g: map<int, BigInteger>, ghost own: set<BigInteger>)
    requires ValidReducer(z) && Separate(z, {g1, g2}, scratch) && km >= 1
    requires StandsFor(z, g1, v) && StandsFor(z, g2, Power(v, 2))
    modifies scratch
    ensures ValidReducer(z) && IsTable(z, g, own, km, v) && Separate(z, own, scratch)
    ensures fresh(own - {g1})
  {
    TableStart(z, g1, v);
    assert Building(z, map[1 := g1], g2, 3, v, {g1}, scratch);
    hide *;
    g, own := map[1 := g1], {g1};
    ghost var extra: set<BigInteger> := {};
    var n := 3;
    while n <= km
      invariant ValidReducer(z) && n >= 3 && n % 2 == 1 && Building(z, g, g2, n, v, own, scratch)
      invariant own == {g1} + extra && fresh(extra)
    {
      var gn := NextPower(z, g, g2, n, v, own, scratch);
      g, own, extra, n := g[n := gn], own + {gn}, extra + {gn}, n + 2;
    }
    BuildingEnd(z, g, g2, n, v, own, scratch, km);
  }

  lemma BuildingEnd(z: Reducer, g: map<int, BigInteger>, g2: BigInteger, n: int, v: int, own: set<BigInteger>,
                    scratch: set<BigInteger>, km: int)
    requires Building(z, g, g2, n, v, own, scratch) && km < n
    ensures IsTable(z, g, own, km, v) && Separate(z, own, scratch)
  {
    TableEnd(z, g, own, n - 1, v, km);
  }

  lemma TableWider(z: Reducer, g: map<int, BigInteger>, own: set<BigInteger>, wider: set<BigInteger>, km: int, v: int)
    requires IsTable(z, g, own, km, v) && own <= wider
    ensures IsTable(z, g, wider, km, v)
  {
    hide Power;
    hide StandsFor;
  }

  /** The bits `h` followed by `n` zero bits. */
  ghost function Appended(h: nat, n: nat): nat {
    h * Pow2(n)
  }

  /** What the loop overwrites: the two working numbers and the reducer's own.  The modulus, the table
      and the exponent are elsewhere. */
  ghost predicate Workspace(z: Reducer, own: set<BigInteger>, mut: set<BigInteger>) {
    Scratch(z) <= mut && Parts(z) !! mut && own !! mut
  }

  ghost predicate Working(z: Reducer, mut: set<BigInteger>, r: BigInteger, r2: BigInteger) {
    r in mut && r2 in mut && r != r2 && r !in Scratch(z) && r2 !in Scratch(z)
  }

  /** The squarings for a window of `n` bits: after them the second number holds the result. */
  method SquareTimes(z: Reducer, a: BigInteger, b: BigInteger, n0: nat, ghost v: int, ghost h: nat,
                     ghost mut: set<BigInteger>)
    returns (r: BigInteger, r2: BigInteger)
    requires ValidReducer(z) && Workspace(z, {}, mut) && Working(z, mut, a, b) && n0 >= 1
    requires StandsFor(z, a, Power(v, h))
    modifies mut
    ensures ValidReducer(z) && Working(z, mut, r, r2) && StandsFor(z, r2, Power(v, Appended(h, n0)))
  {
    hide Power;
    hide StandsFor;
    hide ValidReducer;
    hide Scratch;
    hide Parts;
    r, r2 := a, b;
    var n := n0;
    ghost var p: nat := h;
    while n > 1
      invariant ValidReducer(z) && 0 <= n <= n0 && StandsFor(z, r, Power(v, p)) && p * Pow2(n) == h * Pow2(n0)
      invariant Working(z, mut, r, r2)
    {
      PowerDouble(v, p);
      SqrTo(z, r, r2, Power(v, p));
      PowerDouble(v, 2 * p);
      SqrTo(z, r2, r, Power(v, 2 * p));
      ShiftTwo(p, n);
      n, p := n - 2, 4 * p;
    }
    if n > 0 {
      PowerDouble(v, p);
      SqrTo(z, r, r2, Power(v, p));
      assert p * Pow2(1) == 2 * p;
    } else {
      r, r2 := r2, r;
      assert p * Pow2(0) == p;
    }
  }

  lemma ShiftTwo(p: nat, n: nat)
    requires n > 1
    ensures (4 * p) * Pow2(n - 2) == p * Pow2(n)
  {
    assert Pow2(n) == 2 * Pow2(n - 1) == 4 * Pow2(n - 2);
  }

  /** The place just above bit `i` of digit `j`. */
  ghost function Place(i: int, j: int): int {
    DB * j + i + 1
  }

  /** The next `k` bits from bit `i` of digit `j` down, read across a digit boundary if need be. */
  method ReadWindow(e: BigInteger, i: nat, j: nat, k: nat) returns (w: nat)
    requires e.Valid() && j < e.t && i < DB && 1 <= k <= 6
    ensures Val(e.arr, 0, e.t) >= 0 && w == Window(Val(e.arr, 0, e.t), Place(i, j), k)
  {
    hide Val;
    hide Window;
    ValBound(e.arr, 0, e.t);
    var k1 := k - 1;
    if i >= k1 {
      w := Mask(Sar(e.arr[j], Pow2(i - k1)), Pow2(k));
      WindowInDigit(e.arr, e.t, j, i - k1, k);
    } else {
      w := ReadAcross(e, i, j, k1);
    }
  }

  method ReadAcross(e: BigInteger, i: nat, j: nat, k1: nat) returns (w: nat)
    requires e.Valid() && j < e.t && i < k1 < 6
    ensures Val(e.arr, 0, e.t) >= 0 && w == Window(Val(e.arr, 0, e.t), Place(i, j), k1 + 1)
  {
    hide Val;
    hide Window;
    hide Pow2;
    hide Mul;
    hide BitOr;
    hide Top;
    hide TopPast;
    WindowAcross(e.arr, e.t, j, i, k1 - i);
    LowPartFits(e.arr, e.t, j, k1 - i);
    var high := Mask(e.arr[j], Pow2(i + 1));
    HighFits(high, i + 1, k1 - i);
    w := Shl(high, Pow2(k1 - i));
    if j > 0 {
      var low := Sar(e.arr[j - 1], Pow2(DB + i - k1));
      assert DB + i - k1 == DB - (k1 - i);
      BitOrAdds(high, low, k1 - i);
      w := BitOr(w, low);
    }
    assert i + 1 + (k1 - i) == k1 + 1 && Place(i, j) == DB * j + i + 1;
  }

  lemma HighFits(high: nat, i: nat, c: nat)
    requires high < Pow2(i) && i + c <= 6
    ensures 0 <= high * Pow2(c) < 64 && Shl(high, Pow2(c)) == high * Pow2(c) == Mul(Pow2(c), high)
  {
    Powers();
    Pow2Add(i, c);
    Pow2Monotonic(i + c, 6);
    MulLe(high, Pow2(i), Pow2(c));
  }

  /** The trailing zero bits leave the window. */
  method StripZeros(w0: nat, k: nat, ghost e: nat, ghost p: nat) returns (w: nat, n: nat)
    requires k >= 1 && w0 == Window(e, p, k) && p > 0 && Top(e, p - 1) % 2 == 1
    ensures 1 <= n <= k && n <= p && w == Window(e, p, n) && w % 2 == 1
  {
    w, n := w0, k;
    WindowOne(e, p);
    hide Window;
    while w % 2 == 0
      invariant 1 <= n <= k && w == Window(e, p, n)
      decreases n
    {
      WindowStrip(e, p, n);
      w := w / 2;
      n := n - 1;
    }
    WindowStrip(e, p, n);
  }

  /** Appending an odd window to the exponent read so far. */
  method ApplyWindow(z: Reducer, gw: BigInteger, a: BigInteger, b: BigInteger, is1: bool, n: nat,
                     ghost v: int, ghost h: nat, ghost w: nat, ghost mut: set<BigInteger>)
    returns (r: BigInteger, r2: BigInteger)
    requires ValidReducer(z) && Workspace(z, {gw}, mut) && Working(z, mut, a, b) && n >= 1
    requires StandsFor(z, gw, Power(v, w)) && if is1 then h == 0 else StandsFor(z, a, Power(v, h))
    modifies mut
    ensures ValidReducer(z) && Working(z, mut, r, r2) && StandsFor(z, r, Power(v, Appended(h, n) + w))
  {
    assert is1 ==> Appended(h, n) == 0;
    hide Power;
    hide StandsFor;
    hide ValidReducer;
    hide Scratch;
    hide Appended;
    r, r2 := a, b;
    if is1 {
      CopyResidue(z, gw, r, Power(v, w));
    } else {
      r, r2 := SquareTimes(z, r, r2, n, v, h, mut);
      PowerAdd(v, Appended(h, n), w);
      MulTo(z, r2, gw, r, Power(v, Appended(h, n)), Power(v, w));
    }
  }

  /** The zero bits that follow a window: one squaring each. */
  method SkipZeros(z: Reducer, e: BigInteger, i0: int, j0: int, a: BigInteger, b: BigInteger, ghost v: int, ghost x: nat,
                   ghost mut: set<BigInteger>)
    returns (i: int, j: int, r: BigInteger, r2: BigInteger)
    requires ValidReducer(z) && Workspace(z, {e}, mut) && Working(z, mut, a, b)
    requires e.Valid() && x == Val(e.arr, 0, e.t)
    requires 0 <= i0 < DB && -1 <= j0 < e.t && Place(i0, j0) >= 0
    requires StandsFor(z, a, Power(v, Top(x, Place(i0, j0))))
    modifies mut
    ensures ValidReducer(z) && Working(z, mut, r, r2)
    ensures Reading(z, e, i, j, false, r, v, x) && Place(i, j) <= Place(i0, j0)
  {
    hide Power;
    hide StandsFor;
    hide ValidReducer;
    hide Scratch;
    hide Parts;
    hide Pow2;
    hide Top;
    hide Val;
    i, j, r, r2 := i0, j0, a, b;
    while j >= 0 && !TestBit32(e.arr[j], i)
      invariant ValidReducer(z) && Working(z, mut, r, r2)
      invariant 0 <= i < DB && -1 <= j < e.t && 0 <= Place(i, j) <= Place(i0, j0)
      invariant StandsFor(z, r, Power(v, Top(x, Place(i, j))))
      decreases Place(i, j)
    {
      ghost var p := Place(i, j) - 1;
      DigitBit(e.arr, e.t, j, i);
      TopStep(x, p);
      PowerDouble(v, Top(x, p + 1));
      SqrTo(z, r, r2, Power(v, Top(x, p + 1)));
      r, r2 := r2, r;
      i := i - 1;
      if i < 0 {
        i := DB - 1;
        j := j - 1;
      }
    }
    if j >= 0 {
      DigitBit(e.arr, e.t, j, i);
    }
  }

  lemma WorkspaceOf(z: Reducer, own: set<BigInteger>, mut: set<BigInteger>, o: BigInteger)
    requires Workspace(z, own, mut) && o in own
    ensures Workspace(z, {o}, mut) && o !in mut && own !! mut && z.m !in mut
  {}

  /** At bit `i` of digit `j`, all bits above are in the accumulator and the next one is set. */
  ghost predicate Reading(z: Reducer, e: BigInteger, i: int, j: int, is1: bool, r: BigInteger, v: int, x: nat)
    reads z.m, e, r
  {
    && e.Valid() && x == Val(e.arr, 0, e.t) && 0 <= i < DB && -1 <= j < e.t && 0 <= Place(i, j)
    && (if is1 then j >= 0 && Top(x, Place(i, j)) == 0 else StandsFor(z, r, Power(v, Top(x, Place(i, j)))))
    && (j >= 0 ==> Top(x, Place(i, j) - 1) % 2 == 1)
  }

  lemma ReadingParts(z: Reducer, e: BigInteger, i: int, j: int, is1: bool, r: BigInteger, v: int, x: nat)
    requires Reading(z, e, i, j, is1, r, v, x)
    ensures e.Valid() && x == Val(e.arr, 0, e.t) && 0 <= i < DB && -1 <= j < e.t && 0 <= Place(i, j)
    ensures if is1 then j >= 0 && Top(x, Place(i, j)) == 0 else StandsFor(z, r, Power(v, Top(x, Place(i, j))))
    ensures j >= 0 ==> Place(i, j) >= 1 && Top(x, Place(i, j) - 1) % 2 == 1
  {
    assert j >= 0 ==> Place(i, j) >= 1;
    hide StandsFor;
    hide Top;
    hide Val;
  }

  /** One round: read a window, append it, skip the zeros after it. */
  method WindowRound(z: Reducer, g: map<int, BigInteger>, e: BigInteger, k: nat, i0: int, j0: int, is1: bool,
                     a: BigInteger, b: BigInteger, ghost v: int, ghost x: nat,
                     ghost own: set<BigInteger>, ghost mut: set<BigInteger>)
    returns (i: int, j: int, r: BigInteger, r2: BigInteger)
    requires ValidReducer(z) && 1 <= k <= 6 && IsTable(z, g, own, Pow2(k) - 1, v)
    requires Workspace(z, own, mut) && e in own && Working(z, mut, a, b)
    requires Reading(z, e, i0, j0, is1, a, v, x) && j0 >= 0
    modifies mut
    ensures ValidReducer(z) && IsTable(z, g, own, Pow2(k) - 1, v) && Working(z, mut, r, r2)
    ensures Reading(z, e, i, j, false, r, v, x) && 0 <= Place(i, j) < Place(i0, j0)
  {
    hide *;
    ReadingParts(z, e, i0, j0, is1, a, v, x);
    ghost var h := Top(x, Place(i0, j0));
    var w, n;
    w, n, i, j := ReadOdd(e, i0, j0, k, x);
    TableAt(z, g, own, Pow2(k) - 1, v, w);
    WorkspaceOf(z, own, mut, e);
    WorkspaceOf(z, own, mut, g[w]);
    r, r2 := ApplyWindow(z, g[w], a, b, is1, n, v, h, w, mut);
    i, j, r, r2 := SkipZeros(z, e, i, j, r, r2, v, x, mut);
    ReadingParts(z, e, i, j, false, r, v, x);
  }

  /** The next odd window and the position after it. */
  method ReadOdd(e: BigInteger, i0: nat, j0: nat, k: nat, ghost x: nat) returns (w: nat, n: nat, i: int, j: int)
    requires e.Valid() && x == Val(e.arr, 0, e.t) && 1 <= k <= 6 && i0 < DB && j0 < e.t
    requires Top(x, Place(i0, j0) - 1) % 2 == 1
    ensures 0 <= i < DB && -1 <= j < e.t && 0 <= Place(i, j) < Place(i0, j0)
    ensures 1 <= w <= Pow2(k) - 1 && w % 2 == 1 && n >= 1
    ensures Top(x, Place(i, j)) == Appended(Top(x, Place(i0, j0)), n) + w
  {
    ghost var p := Place(i0, j0);
    w := ReadWindow(e, i0, j0, k);
    w, n := StripZeros(w, k, x, p);
    AppendedWindow(x, p, n, k);
    hide Pow2;
    hide Top;
    hide Val;
    hide Window;
    hide Appended;
    i, j := i0 - n, j0;
    if i < 0 {
      i := i + DB;
      j := j - 1;
    }
    assert Place(i, j) == p - n;
  }

  lemma AppendedWindow(x: nat, p: nat, n: nat, k: nat)
    requires n <= p && n <= k && Window(x, p, n) % 2 == 1
    ensures Top(x, p - n) == Appended(Top(x, p), n) + Window(x, p, n)
    ensures 1 <= Window(x, p, n) <= Pow2(k) - 1
  {
    WindowRead(x, p, n);
    Pow2Monotonic(n, k);
  }

  /** crypto.js `bnBitLength`, for a number that is not negative. */
  method BitLength(e: BigInteger) returns (n: nat)
    requires e.Valid() && e.s == 0 && (e.t > 0 ==> e.arr[e.t - 1] > 0)
    ensures e.t == 0 ==> n == 0
    ensures e.t > 0 ==> DB * (e.t - 1) < n <= DB * e.t
    ensures e.t > 0 ==> Pow2(n - DB * (e.t - 1) - 1) <= e.arr[e.t - 1] < Pow2(n - DB * (e.t - 1))
  {
    if e.t <= 0 {
      return 0;
    }
    var nb := NBits(e.arr[e.t - 1]);
    if nb > DB {
      Powers();
      Pow2Monotonic(DB, nb - 1);
    }
    n := DB * (e.t - 1) + nb;
  }

  lemma ReadingStart(z: Reducer, e: BigInteger, nb: nat, r: BigInteger, v: int, x: nat)
    requires e.Valid() && e.t > 0 && 1 <= nb && Pow2(nb - 1) <= e.arr[e.t - 1] < Pow2(nb) && x == Val(e.arr, 0, e.t)
    ensures Reading(z, e, nb - 1, e.t - 1, true, r, v, x) && 0 <= Place(nb - 1, e.t - 1)
  {
    DigitBits(e.arr[e.t - 1], nb);
    LeadingBit(e.arr, e.t, nb);
    hide Val;
    hide Top;
    hide Pow2;
    hide StandsFor;
    hide Power;
    assert Place(nb - 1, e.t - 1) == DB * (e.t - 1) + nb;
  }

  /** A digit has no more bits than a digit has. */
  lemma DigitBits(d: int, nb: nat)
    requires 1 <= nb && Pow2(nb - 1) <= d < DV
    ensures nb <= DB
  {
    if nb > DB {
      Powers();
      Pow2Monotonic(DB, nb - 1);
    }
  }

  lemma ReadingEnd(z: Reducer, e: BigInteger, i: int, j: int, is1: bool, r: BigInteger, v: int, x: nat)
    requires Reading(z, e, i, j, is1, r, v, x) && j < 0
    ensures StandsFor(z, r, Power(v, x))
  {
    TopAll(x);
    assert Place(i, j) == 0;
    hide StandsFor;
    hide Power;
  }

  /** The main loop of `bnModPow`. */
  method WindowLoop(z: Reducer, g: map<int, BigInteger>, e: BigInteger, k: nat, a: BigInteger, b: BigInteger,
                    ghost v: int, ghost x: nat, ghost own: set<BigInteger>, ghost mut: set<BigInteger>)
    returns (r: BigInteger, ghost spare: BigInteger)
    requires ValidReducer(z) && 1 <= k <= 6 && IsTable(z, g, own, Pow2(k) - 1, v)
    requires Workspace(z, own, mut) && e in own && Working(z, mut, a, b)
    requires e.Valid() && e.t > 0 && e.arr[e.t - 1] > 0 && x == Val(e.arr, 0, e.t)
    modifies mut
    ensures ValidReducer(z) && Working(z, mut, r, spare) && StandsFor(z, r, Power(v, x))
  {
    var i := NBits(e.arr[e.t - 1]);
    ReadingStart(z, e, i, a, v, x);
    WorkspaceOf(z, own, mut, e);
    hide *;
    i := i - 1;
    var j, is1, r2 := e.t - 1, true, b;
    r := a;
    while j >= 0
      invariant ValidReducer(z) && IsTable(z, g, own, Pow2(k) - 1, v) && Working(z, mut, r, r2)
      invariant Reading(z, e, i, j, is1, r, v, x) && 0 <= Place(i, j)
      decreases Place(i, j)
    {
      i, j, r, r2 := WindowRound(z, g, e, k, i, j, is1, r, r2, v, x, own, mut);
      is1 := false;
    }
    ReadingEnd(z, e, i, j, is1, r, v, x);
    spare := r2;
  }

  /** The window width that `bnModPow` picks for an exponent of `i` bits. */
  function WindowWidth(i: nat): (k: nat)
    ensures 1 <= k <= 6
  {
    if i < 18 then 1
    else if i < 48 then 3
    else if i < 144 then 4
    else if i < 768 then 5
    else 6
  }

  /** The reducer that `bnModPow` picks: a small exponent does not pay for the set-up of the others. */
  method PickReducer(m: BigInteger, i: nat) returns (z: Reducer)
    requires Modulus(m) && (i >= 8 && m.Value() % 2 == 0 ==> m.t + 3 <= DV)
    ensures ValidReducer(z) && z.m == m && fresh(Scratch(z)) && fresh(Parts(z) - {m})
  {
    hide Val;
    hide B;
    hide Mul;
    hide Div;
    hide Mod;
    if i < 8 {
      z := Classic(m);
    } else {
      var even := IsEven(m);
      if even {
        z := NewBarrett(m);
      } else {
        z := NewMontgomery(m);
      }
    }
  }

  /** crypto.js `bnModPow`: this^e modulo m for a natural exponent; the exponent 0 gives 1. */
  method ModPow(x: BigInteger, e: BigInteger, m: BigInteger) returns (r: BigInteger)
    requires x.Normal() && e.Normal() && e.s == 0 && Modulus(m) && (m.Value() % 2 == 0 ==> m.t + 3 <= DV)
    ensures fresh(r) && r.Normal() && e.Value() >= 0
    ensures r.Value() == if e.Value() == 0 then 1 else Mod(Power(x.Value(), e.Value()), m.Value())
  {
    Compare.Bounds(e.arr, e.t, e.s);
    hide Val;
    hide B;
    hide Mul;
    hide Mod;
    hide Power;
    var i := BitLength(e);
    r := new BigInteger();
    r.FromInt(1);
    if i <= 0 {
      return;
    }
    var k := WindowWidth(i);
    var z := PickReducer(m, i);
    r := ModPowWith(z, x, e, k, r);
  }

  /** To the power 0 modulo 1: the answer is 1, and the residue would be 0. */
  method ZeroPowerModuloOne() returns (r: BigInteger)
    ensures r.Normal() && r.Value() == 1 != Mod(Power(1, 0), 1)
  {
    hide *;
    BaseIs();
    var x := new BigInteger();
    x.FromInt(1);
    var e := new BigInteger();
    ZeroAndOne(e, x);
    r := ModPow(x, e, x);
  }

  lemma ZeroAndOne(e: BigInteger, x: BigInteger)
    requires e.Normal() && e.s == 0 && e.Valid() && e.Value() == 0 && x.Normal() && x.Value() == 1
    ensures Modulus(x) && x.Value() % 2 == 1 && Mod(Power(1, 0), 1) == 0
  {
    Compare.Bounds(x.arr, x.t, x.s);
  }

  lemma Exponent(e: BigInteger, k: nat)
    requires e.Normal() && e.s == 0 && e.t > 0 && 1 <= k
    ensures e.Valid() && e.t - 1 in e.arr && e.arr[e.t - 1] > 0 && Val(e.arr, 0, e.t) >= 0 && e.Value() == Val(e.arr, 0, e.t)
    ensures Pow2(k) - 1 >= 1 && (k == 1 ==> Pow2(k) - 1 == 1)
  {
    Unsigned(e.arr, e.t);
    ValBound(e.arr, 0, e.t);
    assert e.arr[e.t - 1] > 0;
    hide Val;
    Pow2Monotonic(1, k);
  }

  lemma SeparateIntro(z: Reducer, x: BigInteger, scratch: set<BigInteger>)
    requires ValidReducer(z) && scratch == Scratch(z) && x !in scratch
    ensures Separate(z, {x}, scratch) && Parts(z) !! scratch
  {
    ScratchApart(z);
  }

  lemma OwnApart(own: set<BigInteger>, x: BigInteger, a: BigInteger, r2: BigInteger)
    requires a != x && r2 != x && (forall o :: o in own && o != x ==> o != a && o != r2)
    ensures a !in own && r2 !in own
  {}

  lemma WorkIntro(z: Reducer, own: set<BigInteger>, e: BigInteger, a: BigInteger, r2: BigInteger, scratch: set<BigInteger>,
                  mut: set<BigInteger>)
    requires Separate(z, own, scratch) && mut == {a, r2} + scratch && a !in own && r2 !in own && a != e && r2 != e && e !in scratch
    requires a !in Parts(z) && r2 !in Parts(z) && a != r2 && a !in scratch && r2 !in scratch
    ensures Workspace(z, own + {e}, mut) && e in own + {e} && Working(z, mut, a, r2)
  {}

  lemma WorkParts(z: Reducer, mut: set<BigInteger>, r: BigInteger, r2: BigInteger, scratch: set<BigInteger>)
    requires Working(z, mut, r, r2) && scratch == Scratch(z)
    ensures r in mut && r !in scratch
  {}

  method ModPowWith(z: Reducer, x: BigInteger, e: BigInteger, k: nat, a: BigInteger) returns (r: BigInteger)
    requires ValidReducer(z) && x.Normal() && e.Normal() && e.s == 0 && e.t > 0 && 1 <= k <= 6
    requires x !in Scratch(z) && e !in Scratch(z) && a !in Scratch(z) && a !in Parts(z) && a != x && a != e
    modifies a, Scratch(z)
    ensures r.Normal() && (r == a || fresh(r)) && e.Value() >= 0
    ensures r.Value() == Mod(Power(x.Value(), e.Value()), z.m.Value())
  {
    hide Power;
    hide StandsFor;
    hide ValidReducer;
    hide IsTable;
    hide Separate;
    hide Workspace;
    hide Working;
    hide ValueOf;
    hide Val;
    hide Pow2;
    NormalIsValid(x);
    Exponent(e, k);
    ghost var v, n, scratch, parts := x.Value(), Val(e.arr, 0, e.t), Scratch(z), Parts(z);
    var g;
    ghost var own;
    var r2 := new BigInteger();
    assert r2 !in scratch && r2 !in parts && r2 != x && r2 != e && r2 != a;
    SeparateIntro(z, x, scratch);
    g, own := PowerTable(z, x, k, Pow2(k) - 1, scratch);
    TableWider(z, g, own, own + {e}, Pow2(k) - 1, v);
    ghost var mut := {a, r2} + scratch;
    OwnApart(own, x, a, r2);
    WorkIntro(z, own, e, a, r2, scratch, mut);
    Exponent(e, k);
    ghost var spare;
    r, spare := WindowLoop(z, g, e, k, a, r2, v, n, own + {e}, mut);
    WorkParts(z, mut, r, spare, scratch);
    r := Revert(z, r, Power(v, n));
  }
}
