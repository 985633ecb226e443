/** Splaying as a function of trees, and what it costs: the loop's turns, paid for by the shape of the tree. */
module SplayCost {
  import opened SplayTrees

  /** What the loop of `splay_` comes to: the trees of smaller and of greater keys, the node between them, and the
      number of turns. */
  datatype Parts = Parts(smaller: Tree, node: Node, greater: Tree, turns: nat)

  ghost function Parted(t: Tree, key: real): Parts
    requires t.Branch?
    decreases t
  {
    if key < t.node.key && t.left.Branch? then
      if key < t.left.node.key then
        var u := RotatedRight(t);
        if u.left.Leaf? then Parts(u.left, u.node, u.right, 1)
        else var p := Parted(t.left.left, key); Parts(p.smaller, p.node, Branch(u.node, p.greater, u.right), p.turns + 1)
      else var p := Parted(t.left, key); Parts(p.smaller, p.node, Branch(t.node, p.greater, t.right), p.turns + 1)
    else if key > t.node.key && t.right.Branch? then
      if key > t.right.node.key then
        var u := RotatedLeft(t);
        if u.right.Leaf? then Parts(u.left, u.node, u.right, 1)
        else var p := Parted(t.right.right, key); Parts(Branch(u.node, u.left, p.smaller), p.node, p.greater, p.turns + 1)
      else var p := Parted(t.right, key); Parts(Branch(t.node, t.left, p.smaller), p.node, p.greater, p.turns + 1)
    else Parts(t.left, t.node, t.right, 1)
  }

  /** The tree after a splay, and the turns that it took. */
  ghost function Splayed(t: Tree, key: real): Tree
    requires t.Branch?
  {
    var p := Parted(t, key);
    Branch(p.node, p.smaller, p.greater)
  }

  ghost function Turns(t: Tree, key: real): nat
    requires t.Branch?
  {
    Parted(t, key).turns
  }

  /** The nodes on the way down to the key, or to where it would be. */
  ghost function WayDown(t: Tree, key: real): nat
    requires t.Branch?
  {
    if key < t.node.key && t.left.Branch? then 1 + WayDown(t.left, key)
    else if key > t.node.key && t.right.Branch? then 1 + WayDown(t.right, key)
    else 1
  }

  /** A turn passes one node of the way down or two. */
  lemma {:induction false} TurnsOfWay(t: Tree, key: real)
    requires t.Branch?
    ensures Turns(t, key) <= WayDown(t, key) <= 2 * Turns(t, key)
    decreases t
  {
    if key < t.node.key && t.left.Branch? {
      if key < t.left.node.key {
        if t.left.left.Branch? {
          TurnsOfWay(t.left.left, key);
        }
      } else {
        TurnsOfWay(t.left, key);
      }
    } else if key > t.node.key && t.right.Branch? {
      if key > t.right.node.key {
        if t.right.right.Branch? {
          TurnsOfWay(t.right.right, key);
        }
      } else {
        TurnsOfWay(t.right, key);
      }
    }
  }

  // ---- the weight of a tree

  ghost function Pow2(n: nat): (r: nat)
    ensures r > 0
  {
    if n == 0 then 1 else 2 * Pow2(n - 1)
  }

  ghost function Power(b: nat, n: nat): nat {
    if n == 0 then 1 else b * Power(b, n - 1)
  }

  /** The sizes of all subtrees, multiplied: two to the potential of the amortized analysis. */
  ghost function Weight(t: Tree): (w: nat)
    ensures w > 0
  {
    if t.Leaf? then 1
    else
      assert Size(t) * Weight(t.left) * Weight(t.right) > 0 by {
        Positive(Size(t), Weight(t.left));
        Positive(Size(t) * Weight(t.left), Weight(t.right));
      }
      Size(t) * Weight(t.left) * Weight(t.right)
  }

  lemma Positive(a: nat, b: nat)
    requires a > 0 && b > 0
    ensures a * b > 0
  {}

  ghost function Cost(p: Parts): nat {
    Pow2(p.turns) * (Weight(p.smaller) * Weight(p.greater))
  }

  /** A splay only parts the nodes. */
  lemma {:induction false} PartedSize(t: Tree, key: real)
    requires t.Branch?
    ensures var p := Parted(t, key);
      Size(p.smaller) + 1 + Size(p.greater) == Size(t) && p.turns > 0
    decreases t
  {
    if key < t.node.key && t.left.Branch? {
      if key < t.left.node.key {
        if t.left.left.Branch? {
          PartedSize(t.left.left, key);
        }
      } else {
        PartedSize(t.left, key);
      }
    } else if key > t.node.key && t.right.Branch? {
      if key > t.right.node.key {
        if t.right.right.Branch? {
          PartedSize(t.right.right, key);
        }
      } else {
        PartedSize(t.right, key);
      }
    }
  }

  // ---- arithmetic of the turns

  /** Products by a name, so that a proof need not multiply them out. */
  ghost function Times(a: nat, b: nat): nat {
    a * b
  }

  lemma Units(a: nat)
    ensures Times(1, a) == Times(a, 1) == a && Times(2, a) == 2 * a
  {}

  lemma MulUp(a: nat, b: nat, c: nat, d: nat)
    requires a <= b && c <= d
    ensures a * c <= b * d
  {
    assert (b - a) * c >= 0;
    assert b * (d - c) >= 0;
  }

  lemma TimesUp(a: nat, b: nat, c: nat, d: nat)
    requires a <= b && c <= d
    ensures Times(a, c) <= Times(b, d)
  {
    MulUp(a, b, c, d);
  }

  lemma Scale(k: nat, a: nat, b: nat)
    ensures Times(k * a, b) == k * Times(a, b)
  {}

  lemma Halves(a: nat, b: nat, s: nat)
    requires a + b <= s
    ensures 4 * Times(a, b) <= Times(s, s)
  {
    assert (a - b) * (a - b) >= 0;
    MulUp(a + b, s, a + b, s);
  }

  lemma Reorder(r: nat, up: nat, down: nat, a: nat, k: nat)
    ensures Times(Times(Times(r, r), a), Times(Times(up, down), k)) == Times(Times(Times(r, down), Times(r, up)), Times(a, k))
  {
    assert ((r * r) * a) * ((up * down) * k) == ((r * down) * (r * up)) * (a * k);
  }

  lemma Collect(s: nat, y: nat, a: nat, b: nat, c: nat)
    ensures Times(Times(Times(s, s), Times(y, s)), Times(a, Times(b, c)))
         == Times(Times(s, s), Times(s, Times(Times(y, Times(a, b)), c)))
  {
    assert ((s * s) * (y * s)) * (a * (b * c)) == (s * s) * (s * ((y * (a * b)) * c));
  }

  /** A turn that takes two nodes of one side: `e` is the cost below, `down` and `up` are the sizes of the nodes that go
      down and up, `y` and `s` those of the child and the root before. */
  lemma DoubleTurn(e: nat, s: nat, y: nat, rest: nat, down: nat, up: nat, a: nat, b: nat, c: nat)
    requires e <= 4 * Times(Times(rest, rest), a) && rest <= y && up <= s && rest + down <= s
    ensures Times(e, Times(Times(up, down), Times(b, c))) <= Times(Times(s, s), Times(s, Times(Times(y, Times(a, b)), c)))
  {
    hide *;
    var k, m := Times(a, Times(b, c)), Times(Times(up, down), Times(b, c));
    var p, q := Times(rest, down), Times(rest, up);
    TimesUp(e, 4 * Times(Times(rest, rest), a), m, m);
    Scale(4, Times(Times(rest, rest), a), m);
    Reorder(rest, up, down, a, Times(b, c));
    Halves(rest, down, s);
    TimesUp(rest, y, up, s);
    TimesUp(4 * p, Times(s, s), q, Times(y, s));
    Scale(4, p, q);
    TimesUp(4 * Times(p, q), Times(Times(s, s), Times(y, s)), k, k);
    Scale(4, Times(p, q), k);
    Collect(s, y, a, b, c);
  }

  lemma ReorderOne(r: nat, x: nat, a: nat, b: nat)
    ensures Times(Times(Times(r, r), a), Times(x, b)) == Times(Times(Times(r, r), x), Times(a, b))
  {
    assert ((r * r) * a) * (x * b) == ((r * r) * x) * (a * b);
  }

  lemma CollectOne(s: nat, a: nat, b: nat)
    ensures Times(Times(Times(s, s), s), Times(a, b)) == Times(Times(s, s), Times(Times(s, a), b))
  {
    assert ((s * s) * s) * (a * b) == (s * s) * ((s * a) * b);
  }

  /** A turn that takes one node, before one that takes two or none. */
  lemma SingleTurn(e: nat, s: nat, rest: nat, x: nat, a: nat, b: nat)
    requires e <= 2 * Times(Times(rest, rest), a) && rest <= s && x <= s
    ensures 2 * Times(e, Times(x, b)) <= 4 * Times(Times(s, s), Times(Times(s, a), b))
  {
    hide *;
    var r2, m := Times(rest, rest), Times(x, b);
    TimesUp(e, 2 * Times(r2, a), m, m);
    Scale(2, Times(r2, a), m);
    ReorderOne(rest, x, a, b);
    TimesUp(rest, s, rest, s);
    TimesUp(r2, Times(s, s), x, s);
    TimesUp(Times(r2, x), Times(Times(s, s), s), Times(a, b), Times(a, b));
    CollectOne(s, a, b);
  }

  lemma ReorderTwo(r: nat, x: nat, w: nat, a: nat, k: nat)
    ensures Times(Times(Times(r, r), a), Times(Times(w, x), k)) == Times(Times(Times(r, r), Times(x, w)), Times(a, k))
  {
    assert ((r * r) * a) * ((w * x) * k) == ((r * r) * (x * w)) * (a * k);
  }

  lemma CollectTwo(s: nat, y: nat, a: nat, b: nat, c: nat)
    ensures Times(Times(Times(s, y), Times(s, s)), Times(a, Times(c, b)))
         == Times(Times(s, s), Times(Times(s, Times(y, Times(c, a))), b))
  {
    assert ((s * y) * (s * s)) * (a * (c * b)) == (s * s) * ((s * (y * (c * a))) * b);
  }

  /** Two turns that take a node each, of sizes `x` and `w` afterwards, from different sides. */
  lemma TwoTurns(e: nat, s: nat, y: nat, rest: nat, x: nat, w: nat, a: nat, b: nat, c: nat)
    requires e <= 4 * Times(Times(rest, rest), a) && rest <= y <= s && x + w <= s
    ensures Times(e, Times(Times(w, x), Times(c, b))) <= Times(Times(s, s), Times(Times(s, Times(y, Times(c, a))), b))
  {
    hide *;
    var k, m := Times(a, Times(c, b)), Times(Times(w, x), Times(c, b));
    var p, q := Times(rest, rest), Times(x, w);
    TimesUp(e, 4 * Times(p, a), m, m);
    Scale(4, Times(p, a), m);
    ReorderTwo(rest, x, w, a, Times(c, b));
    Halves(x, w, s);
    TimesUp(rest, s, rest, y);
    TimesUp(p, Times(s, y), 4 * q, Times(s, s));
    ScaleRight(4, p, q);
    TimesUp(4 * Times(p, q), Times(Times(s, y), Times(s, s)), k, k);
    Scale(4, Times(p, q), k);
    CollectTwo(s, y, a, b, c);
  }

  lemma ScaleRight(k: nat, a: nat, b: nat)
    ensures Times(a, k * b) == k * Times(a, b)
  {}

  lemma AtLeastOne(s: nat, x: nat)
    requires s > 0
    ensures x <= Times(s, x)
  {
    MulUp(1, s, x, x);
  }

  /** The last turn. */
  lemma LastTurn(s: nat, a: nat, b: nat)
    requires s > 0
    ensures 2 * Times(a, b) <= 2 * Times(Times(s, s), Times(Times(s, a), b))
  {
    hide *;
    AtLeastOne(s, s);
    AtLeastOne(Times(s, s), s);
    AtLeastOne(Times(Times(s, s), s), Times(a, b));
    CollectOne(s, a, b);
  }

  /** The last turn, when it takes two nodes. */
  lemma LastDouble(s: nat, y: nat, down: nat, b: nat, c: nat)
    requires down <= s && y > 0 && s > 0
    ensures 2 * Times(down, Times(b, c)) <= 2 * Times(Times(s, s), Times(s, Times(Times(y, b), c)))
  {
    hide *;
    var k := Times(b, c);
    AtLeastOne(y, k);
    TimesUp(down, s, k, Times(y, k));
    AtLeastOne(s, s);
    AtLeastOne(Times(s, s), Times(s, Times(y, k)));
    Regroup(y, b, c);
  }

  // ---- the cost of a splay

  /** The first turn takes one node and the loop goes on. */
  ghost predicate Single(t: Tree, key: real) {
    && t.Branch?
    && ((key < t.node.key && t.left.Branch? && key >= t.left.node.key)
        || (key > t.node.key && t.right.Branch? && key <= t.right.node.key))
  }

  /** The weight with the square of the size, twice, pays for the cost; four times, when the first turn is single. */
  ghost predicate Paid(t: Tree, key: real)
    requires t.Branch?
  {
    var w, c := Times(Times(Size(t), Size(t)), Weight(t)), Cost(Parted(t, key));
    c <= 4 * w && (!Single(t, key) ==> c <= 2 * w)
  }

  lemma WeightOf(t: Tree)
    requires t.Branch?
    ensures Weight(t) == Times(Times(Size(t), Weight(t.left)), Weight(t.right))
    ensures Size(t) == Size(t.left) + 1 + Size(t.right)
  {}

  lemma CostOf(p: Parts)
    requires p.turns > 0
    ensures Cost(p) == Times(Pow2(p.turns), Times(Weight(p.smaller), Weight(p.greater)))
    ensures Cost(p) == 2 * Times(Pow2(p.turns - 1), Times(Weight(p.smaller), Weight(p.greater)))
    ensures p.turns > 1 ==> Cost(p) == 4 * Times(Pow2(p.turns - 2), Times(Weight(p.smaller), Weight(p.greater)))
    ensures Pow2(0) == 1
  {
    var m := Times(Weight(p.smaller), Weight(p.greater));
    hide Weight;
    Doubled(Pow2(p.turns - 1), m);
    if p.turns > 1 {
      Doubled(Pow2(p.turns - 2), m);
    }
  }

  lemma Doubled(q: nat, m: nat)
    ensures Times(2 * q, m) == 2 * Times(q, m)
  {}

  lemma {:induction false} Amortized(t: Tree, key: real)
    requires t.Branch?
    ensures Paid(t, key)
    decreases t
  {
    hide *;
    if key < t.node.key && t.left.Branch? {
      if key < t.left.node.key {
        if t.left.left.Branch? {
          Amortized(t.left.left, key);
        }
        DoubleRight(t, key);
      } else {
        Amortized(t.left, key);
        if Single(t.left, key) {
          SecondLeft(t.left, key);
          Amortized(t.left.right, key);
          RightLeft(t, key);
        } else {
          SingleRight(t, key);
        }
      }
    } else if key > t.node.key && t.right.Branch? {
      if key > t.right.node.key {
        if t.right.right.Branch? {
          Amortized(t.right.right, key);
        }
        DoubleLeft(t, key);
      } else {
        Amortized(t.right, key);
        if Single(t.right, key) {
          SecondRight(t.right, key);
          Amortized(t.right.left, key);
          LeftRight(t, key);
        } else {
          SingleLeft(t, key);
        }
      }
    } else {
      Stopped(t, key);
    }
  }

  lemma SecondLeft(t: Tree, key: real)
    requires t.Branch? && key >= t.node.key && Single(t, key)
    ensures key > t.node.key && t.right.Branch? && key <= t.right.node.key
  {}

  lemma SecondRight(t: Tree, key: real)
    requires t.Branch? && key <= t.node.key && Single(t, key)
    ensures key < t.node.key && t.left.Branch? && key >= t.left.node.key
  {}

  lemma PaidIntro(t: Tree, key: real)
    requires t.Branch? && Cost(Parted(t, key)) <= 2 * Times(Times(Size(t), Size(t)), Weight(t))
    ensures Paid(t, key)
  {}

  lemma PaidSingle(t: Tree, key: real)
    requires t.Branch? && Single(t, key) && Cost(Parted(t, key)) <= 4 * Times(Times(Size(t), Size(t)), Weight(t))
    ensures Paid(t, key)
  {}

  lemma PaidParts(t: Tree, key: real)
    requires t.Branch? && Paid(t, key)
    ensures Cost(Parted(t, key)) <= 4 * Times(Times(Size(t), Size(t)), Weight(t))
    ensures !Single(t, key) ==> Cost(Parted(t, key)) <= 2 * Times(Times(Size(t), Size(t)), Weight(t))
  {}

  lemma Stopped(t: Tree, key: real)
    requires t.Branch? && !(key < t.node.key && t.left.Branch?) && !(key > t.node.key && t.right.Branch?)
    ensures Paid(t, key)
  {
    PartedStop(t, key);
    hide *;
    WeightOf(t);
    CostOf(Parted(t, key));
    LastTurn(Size(t), Weight(t.left), Weight(t.right));
    PaidIntro(t, key);
  }

  lemma PartedStop(t: Tree, key: real)
    requires t.Branch? && !(key < t.node.key && t.left.Branch?) && !(key > t.node.key && t.right.Branch?)
    ensures Parted(t, key) == Parts(t.left, t.node, t.right, 1)
  {}

  // ---- two nodes of one side

  lemma DoubleCost(q: nat, l: nat, r: nat, up: nat, down: nat, b: nat, c: nat)
    ensures 2 * Times(q, Times(l, Times(Times(up, r), Times(Times(down, b), c)))) == 2 * Times(Times(q, Times(l, r)), Times(Times(up, down), Times(b, c)))
    ensures 2 * Times(q, Times(Times(Times(up, Times(Times(down, c), b)), r), l)) == 2 * Times(Times(q, Times(r, l)), Times(Times(up, down), Times(b, c)))
  {}

  lemma DoubleWeight(s: nat, y: nat, a: nat, b: nat, c: nat)
    ensures Times(Times(s, Times(Times(y, a), b)), c) == Times(s, Times(Times(y, Times(a, b)), c))
    ensures Times(Times(s, c), Times(Times(y, b), a)) == Times(s, Times(Times(y, Times(a, b)), c))
  {}

  /** The cost of a turn that takes two nodes, on the right ... */
  lemma DoubleRightCost(q: nat, l: nat, r: nat, up: nat, down: nat, rest: nat, s: nat, y: nat, a: nat, b: nat, c: nat)
    requires Times(q, Times(l, r)) <= 4 * Times(Times(rest, rest), a) && rest <= y && up <= s && rest + down <= s
    ensures 2 * Times(q, Times(l, Times(Times(up, r), Times(Times(down, b), c)))) <= 2 * Times(Times(s, s), Times(Times(s, Times(Times(y, a), b)), c))
  {
    hide *;
    DoubleCost(q, l, r, up, down, b, c);
    DoubleTurn(Times(q, Times(l, r)), s, y, rest, down, up, a, b, c);
    DoubleWeight(s, y, a, b, c);
  }

  /** ... and on the left. */
  lemma DoubleLeftCost(q: nat, l: nat, r: nat, up: nat, down: nat, rest: nat, s: nat, y: nat, a: nat, b: nat, c: nat)
    requires Times(q, Times(l, r)) <= 4 * Times(Times(rest, rest), a) && rest <= y && up <= s && rest + down <= s
    ensures 2 * Times(q, Times(Times(Times(up, Times(Times(down, c), b)), l), r)) <= 2 * Times(Times(s, s), Times(Times(s, c), Times(Times(y, b), a)))
  {
    hide *;
    DoubleCost(q, r, l, up, down, b, c);
    DoubleTurn(Times(q, Times(l, r)), s, y, rest, down, up, a, b, c);
    DoubleWeight(s, y, a, b, c);
  }

  lemma LastRightCost(down: nat, s: nat, y: nat, b: nat, c: nat)
    requires down <= s && y > 0 && s > 0
    ensures 2 * Times(1, Times(1, Times(Times(down, b), c))) <= 2 * Times(Times(s, s), Times(Times(s, Times(Times(y, 1), b)), c))
  {
    var m := Times(Times(down, b), c);
    DownFirst(down, b, c);
    hide *;
    Units(m);
    Units(y);
    Units(b);
    LastDouble(s, y, down, b, c);
    DoubleWeight(s, y, 1, b, c);
  }

  lemma LastLeftCost(down: nat, s: nat, y: nat, b: nat, c: nat)
    requires down <= s && y > 0 && s > 0
    ensures 2 * Times(1, Times(Times(Times(down, c), b), 1)) <= 2 * Times(Times(s, s), Times(Times(s, c), Times(Times(y, b), 1)))
  {
    var m := Times(Times(down, c), b);
    DownFirst(down, b, c);
    hide *;
    Units(m);
    Units(b);
    LastDouble(s, y, down, b, c);
    DoubleWeight(s, y, 1, b, c);
  }

  lemma DownFirst(down: nat, b: nat, c: nat)
    ensures Times(Times(down, b), c) == Times(down, Times(b, c)) == Times(Times(down, c), b)
  {}

  lemma PartedDoubleRight(t: Tree, key: real)
    requires t.Branch? && key < t.node.key && t.left.Branch? && key < t.left.node.key
    ensures !Single(t, key)
    ensures var down := Branch(t.node, t.left.right, t.right);
      if t.left.left.Leaf? then Parted(t, key) == Parts(Leaf, t.left.node, down, 1)
      else var p := Parted(t.left.left, key);
        Parted(t, key) == Parts(p.smaller, p.node, Branch(t.left.node, p.greater, down), p.turns + 1)
  {}

  lemma DoubleRight(t: Tree, key: real)
    requires t.Branch? && key < t.node.key && t.left.Branch? && key < t.left.node.key
    requires t.left.left.Branch? ==> Paid(t.left.left, key)
    ensures Paid(t, key)
  {
    PartedDoubleRight(t, key);
    hide *;
    var down := Branch(t.node, t.left.right, t.right);
    var a, b, c := Weight(t.left.left), Weight(t.left.right), Weight(t.right);
    var s, y := Size(t), Size(t.left);
    WeightOf(t);
    WeightOf(t.left);
    WeightOf(down);
    LeafIs();
    CostOf(Parted(t, key));
    if t.left.left.Leaf? {
      LastRightCost(Size(down), s, y, b, c);
    } else {
      var p := Parted(t.left.left, key);
      var up := Branch(t.left.node, p.greater, down);
      PaidParts(t.left.left, key);
      PartedSize(t.left.left, key);
      CostOf(p);
      WeightOf(up);
      DoubleRightCost(Pow2(p.turns), Weight(p.smaller), Weight(p.greater), Size(up), Size(down), Size(t.left.left), s, y, a, b, c);
    }
    PaidIntro(t, key);
  }

  lemma LeafIs()
    ensures Weight(Leaf) == 1 && Size(Leaf) == 0
  {}

  lemma PartedDoubleLeft(t: Tree, key: real)
    requires t.Branch? && key > t.node.key && t.right.Branch? && key > t.right.node.key
    ensures !Single(t, key)
    ensures var down := Branch(t.node, t.left, t.right.left);
      if t.right.right.Leaf? then Parted(t, key) == Parts(down, t.right.node, Leaf, 1)
      else var p := Parted(t.right.right, key);
        Parted(t, key) == Parts(Branch(t.right.node, down, p.smaller), p.node, p.greater, p.turns + 1)
  {}

  lemma DoubleLeft(t: Tree, key: real)
    requires t.Branch? && key > t.node.key && t.right.Branch? && key > t.right.node.key
    requires t.right.right.Branch? ==> Paid(t.right.right, key)
    ensures Paid(t, key)
  {
    PartedDoubleLeft(t, key);
    hide *;
    var down := Branch(t.node, t.left, t.right.left);
    var a, b, c := Weight(t.right.right), Weight(t.right.left), Weight(t.left);
    var s, y := Size(t), Size(t.right);
    WeightOf(t);
    WeightOf(t.right);
    WeightOf(down);
    LeafIs();
    CostOf(Parted(t, key));
    if t.right.right.Leaf? {
      LastLeftCost(Size(down), s, y, b, c);
    } else {
      var p := Parted(t.right.right, key);
      var up := Branch(t.right.node, down, p.smaller);
      PaidParts(t.right.right, key);
      PartedSize(t.right.right, key);
      CostOf(p);
      WeightOf(up);
      DoubleLeftCost(Pow2(p.turns), Weight(p.smaller), Weight(p.greater), Size(up), Size(down), Size(t.right.right), s, y, a, b, c);
    }
    PaidIntro(t, key);
  }

  // ---- one node

  lemma SingleCost(q: nat, l: nat, r: nat, x: nat, b: nat)
    ensures 2 * Times(q, Times(l, Times(Times(x, r), b))) == 2 * Times(Times(q, Times(l, r)), Times(x, b))
    ensures 2 * Times(q, Times(Times(Times(x, b), r), l)) == 2 * Times(Times(q, Times(r, l)), Times(x, b))
  {}

  lemma PartedSingleRight(t: Tree, key: real)
    requires t.Branch? && key < t.node.key && t.left.Branch? && key >= t.left.node.key
    ensures Single(t, key)
    ensures var p := Parted(t.left, key);
      Parted(t, key) == Parts(p.smaller, p.node, Branch(t.node, p.greater, t.right), p.turns + 1)
  {}

  lemma SingleRight(t: Tree, key: real)
    requires t.Branch? && key < t.node.key && t.left.Branch? && key >= t.left.node.key
    requires Paid(t.left, key) && !Single(t.left, key)
    ensures Paid(t, key)
  {
    PartedSingleRight(t, key);
    hide *;
    var p := Parted(t.left, key);
    var x := Branch(t.node, p.greater, t.right);
    WeightOf(t);
    WeightOf(x);
    PaidParts(t.left, key);
    PartedSize(t.left, key);
    CostOf(p);
    CostOf(Parted(t, key));
    SingleCost(Pow2(p.turns), Weight(p.smaller), Weight(p.greater), Size(x), Weight(t.right));
    SingleTurn(Cost(p), Size(t), Size(t.left), Size(x), Weight(t.left), Weight(t.right));
    PaidSingle(t, key);
  }

  lemma PartedSingleLeft(t: Tree, key: real)
    requires t.Branch? && key > t.node.key && t.right.Branch? && key <= t.right.node.key
    ensures Single(t, key)
    ensures var p := Parted(t.right, key);
      Parted(t, key) == Parts(Branch(t.node, t.left, p.smaller), p.node, p.greater, p.turns + 1)
  {}

  lemma SwapSides(s: nat, a: nat, b: nat)
    ensures Times(Times(s, a), b) == Times(Times(s, b), a)
  {}

  lemma SingleLeft(t: Tree, key: real)
    requires t.Branch? && key > t.node.key && t.right.Branch? && key <= t.right.node.key
    requires Paid(t.right, key) && !Single(t.right, key)
    ensures Paid(t, key)
  {
    PartedSingleLeft(t, key);
    hide *;
    var p := Parted(t.right, key);
    var x := Branch(t.node, t.left, p.smaller);
    WeightOf(t);
    WeightOf(x);
    PaidParts(t.right, key);
    PartedSize(t.right, key);
    CostOf(p);
    CostOf(Parted(t, key));
    SingleCost(Pow2(p.turns), Weight(p.greater), Weight(p.smaller), Size(x), Weight(t.left));
    SingleTurn(Cost(p), Size(t), Size(t.right), Size(x), Weight(t.right), Weight(t.left));
    SwapSides(Size(t), Weight(t.left), Weight(t.right));
    PaidSingle(t, key);
  }

  // ---- one node, and then one of the other side

  lemma Shuffle(w: nat, c: nat, l: nat, x: nat, r: nat, b: nat)
    ensures Times(Times(Times(w, c), l), Times(Times(x, r), b)) == Times(Times(l, r), Times(Times(w, x), Times(c, b)))
  {
    assert (w * c * l) * (x * r * b) == (l * r) * ((w * x) * (c * b));
  }

  lemma Regroup(a: nat, b: nat, c: nat)
    ensures Times(a, Times(b, c)) == Times(Times(a, b), c) && Times(a, b) == Times(b, a)
  {}

  lemma TwoCost(q: nat, l: nat, r: nat, w: nat, x: nat, b: nat, c: nat)
    ensures 4 * Times(q, Times(Times(Times(w, c), l), Times(Times(x, r), b))) == 4 * Times(Times(q, Times(l, r)), Times(Times(w, x), Times(c, b)))
    ensures 4 * Times(q, Times(Times(Times(x, b), l), Times(Times(w, r), c))) == 4 * Times(Times(q, Times(l, r)), Times(Times(w, x), Times(c, b)))
  {
    hide *;
    Shuffle(w, c, l, x, r, b);
    Shuffle(x, b, l, w, r, c);
    Regroup(w, x, 1);
    Regroup(b, c, 1);
    Regroup(q, Times(l, r), Times(Times(w, x), Times(c, b)));
  }

  lemma TwoWeight(s: nat, y: nat, a: nat, b: nat, c: nat)
    ensures Times(Times(s, Times(Times(y, c), a)), b) == Times(Times(s, Times(y, Times(c, a))), b)
    ensures Times(Times(s, b), Times(Times(y, a), c)) == Times(Times(s, Times(y, Times(c, a))), b)
  {}

  lemma RightLeft(t: Tree, key: real)
    requires t.Branch? && key < t.node.key && t.left.Branch? && key > t.left.node.key
    requires t.left.right.Branch? && key <= t.left.right.node.key && Paid(t.left.right, key)
    ensures Paid(t, key)
  {
    PartedSingleRight(t, key);
    PartedSingleLeft(t.left, key);
    hide *;
    var p := Parted(t.left.right, key);
    var w, x := Branch(t.left.node, t.left.left, p.smaller), Branch(t.node, p.greater, t.right);
    var a, b, c := Weight(t.left.right), Weight(t.right), Weight(t.left.left);
    WeightOf(t);
    WeightOf(t.left);
    WeightOf(w);
    WeightOf(x);
    PaidParts(t.left.right, key);
    PartedSize(t.left.right, key);
    CostOf(p);
    CostOf(Parted(t.left, key));
    CostOf(Parted(t, key));
    TwoCost(Pow2(p.turns), Weight(p.smaller), Weight(p.greater), Size(w), Size(x), b, c);
    TwoTurns(Cost(p), Size(t), Size(t.left), Size(t.left.right), Size(x), Size(w), a, b, c);
    TwoWeight(Size(t), Size(t.left), a, b, c);
    PaidSingle(t, key);
  }

  lemma LeftRight(t: Tree, key: real)
    requires t.Branch? && key > t.node.key && t.right.Branch? && key < t.right.node.key
    requires t.right.left.Branch? && key >= t.right.left.node.key && Paid(t.right.left, key)
    ensures Paid(t, key)
  {
    PartedSingleLeft(t, key);
    PartedSingleRight(t.right, key);
    hide *;
    var p := Parted(t.right.left, key);
    var x, w := Branch(t.node, t.left, p.smaller), Branch(t.right.node, p.greater, t.right.right);
    var a, b, c := Weight(t.right.left), Weight(t.left), Weight(t.right.right);
    WeightOf(t);
    WeightOf(t.right);
    WeightOf(w);
    WeightOf(x);
    PaidParts(t.right.left, key);
    PartedSize(t.right.left, key);
    CostOf(p);
    CostOf(Parted(t.right, key));
    CostOf(Parted(t, key));
    TwoCost(Pow2(p.turns), Weight(p.smaller), Weight(p.greater), Size(w), Size(x), b, c);
    TwoTurns(Cost(p), Size(t), Size(t.right), Size(t.right.left), Size(x), Size(w), a, b, c);
    TwoWeight(Size(t), Size(t.right), a, b, c);
    PaidSingle(t, key);
  }

  /** What a splay costs: two to its turns, times the weight after, is at most four times the cube of the size, times the
      weight before. */
  lemma SplayCosts(t: Tree, key: real)
    requires t.Branch?
    ensures var n := Size(t);
      Pow2(Turns(t, key)) * Weight(Splayed(t, key)) <= 4 * (n * n * n) * Weight(t)
    ensures Size(Splayed(t, key)) == Size(t)
  {
    hide *;
    var l, r := SplayBound(t, key);
    Cubed(Pow2(Turns(t, key)), l, r, Size(t), Weight(t), Weight(Splayed(t, key)));
  }

  lemma SplayBound(t: Tree, key: real) returns (l: nat, r: nat)
    requires t.Branch?
    ensures var n := Size(t);
      && Times(Pow2(Turns(t, key)), Times(l, r)) <= 4 * Times(Times(n, n), Weight(t))
      && Weight(Splayed(t, key)) == Times(Times(n, l), r) && Size(Splayed(t, key)) == n
  {
    hide *;
    var p := Parted(t, key);
    Amortized(t, key);
    PaidParts(t, key);
    PartedSize(t, key);
    CostOf(p);
    SplayedIs(t, key);
    WeightOf(Splayed(t, key));
    l, r := Weight(p.smaller), Weight(p.greater);
  }

  lemma SplayedIs(t: Tree, key: real)
    requires t.Branch?
    ensures var p := Parted(t, key);
      Splayed(t, key) == Branch(p.node, p.smaller, p.greater) && Turns(t, key) == p.turns
  {}

  lemma Cubed(q: nat, l: nat, r: nat, n: nat, w: nat, after: nat)
    requires Times(q, Times(l, r)) <= 4 * Times(Times(n, n), w) && after == Times(Times(n, l), r)
    ensures q * after <= 4 * (n * n * n) * w
  {
    MulUp(q * (l * r), 4 * (n * n) * w, n, n);
    assert q * (l * r) * n == q * (n * l * r);
    assert 4 * (n * n) * w * n == 4 * (n * n * n) * w;
  }

  // ---- what the operations pay

  /** Two to the turns, times the weight after, is at most the fee times the weight before. */
  ghost predicate Pays(t: Tree, t': Tree, turns: nat, fee: nat) {
    Times(Pow2(turns), Weight(t')) <= Times(fee, Weight(t))
  }

  ghost function LookFee(n: nat): nat {
    4 * (n * n * n)
  }

  ghost function InsertFee(n: nat): nat {
    LookFee(n) * n
  }

  ghost function RemoveFee(n: nat): nat {
    LookFee(n) * LookFee(n)
  }

  lemma FeesGrow(m: nat, n: nat)
    requires 0 < m <= n
    ensures 0 < LookFee(m) <= LookFee(n)
    ensures LookFee(m) <= InsertFee(m) <= RemoveFee(m)
    ensures LookFee(m) <= RemoveFee(m) <= RemoveFee(n)
  {
    MulUp(m, n, m, n);
    MulUp(m * m, n * n, m, n);
    MulUp(1, m, 1, m);
    MulUp(1, m * m, m, m);
    var f := LookFee(m);
    MulUp(f, f, 1, m);
    MulUp(f, f, m, f);
    MulUp(f, LookFee(n), f, LookFee(n));
  }

  lemma PaysMore(t: Tree, t': Tree, turns: nat, fee: nat, more: nat)
    requires Pays(t, t', turns, fee) && fee <= more
    ensures Pays(t, t', turns, more)
  {
    TimesUp(fee, more, Weight(t), Weight(t));
  }

  lemma {:induction false} Pow2Sum(a: nat, b: nat)
    ensures Pow2(a + b) == Times(Pow2(a), Pow2(b))
    decreases a
  {
    if a > 0 {
      Pow2Sum(a - 1, b);
      Doubled(Pow2(a - 1), Pow2(b));
      hide Times;
    } else {
      Units(Pow2(b));
    }
  }

  /** Turns add up, fees multiply. */
  lemma PaysThen(t: Tree, t1: Tree, t2: Tree, a: nat, b: nat, f: nat, g: nat)
    requires Pays(t, t1, a, f) && Pays(t1, t2, b, g)
    ensures Pays(t, t2, a + b, g * f)
  {
    Pow2Sum(a, b);
    ProductIs(g, f);
    PaysIs(t, t1, a, f);
    PaysIs(t1, t2, b, g);
    PaysIs(t, t2, a + b, g * f);
    hide *;
    var p, q, w, w1, w2 := Pow2(a), Pow2(b), Weight(t), Weight(t1), Weight(t2);
    Regroup(p, q, w2);
    TimesUp(p, p, Times(q, w2), Times(g, w1));
    Regroup(p, g, w1);
    Regroup(g, p, w1);
    TimesUp(g, g, Times(p, w1), Times(f, w));
    Regroup(g, f, w);
  }

  lemma ProductIs(g: nat, f: nat)
    ensures g * f == Times(g, f)
  {}

  lemma PaysIs(t: Tree, t': Tree, turns: nat, fee: nat)
    ensures Pays(t, t', turns, fee) <==> Times(Pow2(turns), Weight(t')) <= Times(fee, Weight(t))
  {}

  lemma NothingPays(t: Tree)
    ensures Pays(t, t, 0, 1) && Pays(t, t, 0, LookFee(Size(t) + 1)) && Pays(t, t, 0, RemoveFee(Size(t) + 1))
  {
    Units(Weight(t));
    FeesGrow(Size(t) + 1, Size(t) + 1);
    PaysMore(t, t, 0, 1, LookFee(Size(t) + 1));
    PaysMore(t, t, 0, 1, RemoveFee(Size(t) + 1));
  }

  /** A splay pays the fee of a look-up. */
  lemma SplayPays(t: Tree, key: real, n: nat)
    requires t.Branch? && Size(t) <= n
    ensures Pays(t, Splayed(t, key), Turns(t, key), LookFee(n)) && Size(Splayed(t, key)) == Size(t)
  {
    SplayCosts(t, key);
    FeesGrow(Size(t), n);
    hide Splayed;
    hide Turns;
    hide Weight;
    PaysMore(t, Splayed(t, key), Turns(t, key), LookFee(Size(t)), LookFee(n));
  }

  lemma FindPays(t: Tree, key: real)
    requires t.Branch?
    ensures Pays(t, Splayed(t, key), Turns(t, key), LookFee(Size(t) + 1)) && Size(Splayed(t, key)) == Size(t)
  {
    SplayPays(t, key, Size(t) + 1);
  }

  lemma LookLess(t: Tree, t': Tree, turns: nat, n: nat)
    requires Pays(t, t', turns, LookFee(n)) && n > 0
    ensures Pays(t, t', turns, RemoveFee(n))
  {
    FeesGrow(n, n);
    PaysMore(t, t', turns, LookFee(n), RemoveFee(n));
  }

  lemma InsertLess(t: Tree, t': Tree, turns: nat, n: nat)
    requires Pays(t, t', turns, InsertFee(n)) && n > 0
    ensures Pays(t, t', turns, RemoveFee(n))
  {
    FeesGrow(n, n);
    PaysMore(t, t', turns, InsertFee(n), RemoveFee(n));
  }

  lemma FirstPays(node: Node)
    ensures Pays(Leaf, Branch(node, Leaf, Leaf), 0, InsertFee(Size(Leaf) + 1)) && Size(Branch(node, Leaf, Leaf)) == 1
  {}

  lemma InsertPays(t: Tree, key: real)
    requires t.Branch?
    ensures Pays(t, Splayed(t, key), Turns(t, key), InsertFee(Size(t) + 1)) && Size(Splayed(t, key)) == Size(t)
  {
    hide *;
    FindPays(t, key);
    FeesGrow(Size(t) + 1, Size(t) + 1);
    PaysMore(t, Splayed(t, key), Turns(t, key), LookFee(Size(t) + 1), InsertFee(Size(t) + 1));
  }

  /** A new node above the root adds its own size to the weight. */
  lemma AbovePays(t: Tree, node: Node)
    requires t.Branch?
    ensures Pays(t, Inserted(t, node), 0, Size(t) + 1) && Size(Inserted(t, node)) == Size(t) + 1
  {
    AboveIs(t, node);
    hide *;
    var u, n := Inserted(t, node), Size(t);
    var side := if node.key > t.node.key then u.left else u.right;
    WeightOf(t);
    WeightOf(u);
    WeightOf(side);
    LeafIs();
    var a, b := Weight(t.left), Weight(t.right);
    Units(Times(Times(Size(side), a), 1));
    Units(Times(Size(side), a));
    Units(Size(side));
    AboveWeight(n, Size(side), a, b);
    PaysIs(t, u, 0, n + 1);
    PowNone();
    Units(Weight(u));
  }

  lemma PowNone()
    ensures Pow2(0) == 1
  {}

  lemma AboveIs(t: Tree, node: Node)
    requires t.Branch?
    ensures var u := Inserted(t, node);
      && u.Branch?
      && (if node.key > t.node.key then u.left == Branch(t.node, t.left, Leaf) && u.right == t.right
          else u.left == t.left && u.right == Branch(t.node, Leaf, t.right))
  {}

  lemma AboveWeight(n: nat, s: nat, a: nat, b: nat)
    requires s <= n
    ensures Times(Times(n + 1, Times(s, a)), b) <= Times(n + 1, Times(Times(n, a), b))
    ensures Times(Times(n + 1, a), Times(s, b)) <= Times(n + 1, Times(Times(n, a), b))
  {
    hide *;
    TimesUp(s, n, a, a);
    TimesUp(Times(s, a), Times(n, a), b, b);
    TimesUp(n + 1, n + 1, Times(Times(s, a), b), Times(Times(n, a), b));
    Regroup(n + 1, Times(s, a), b);
    Regroup(n + 1, a, Times(s, b));
    Regroup(a, s, b);
    Regroup(s, a, b);
  }

  lemma InsertedPays(t: Tree, key: real, node: Node)
    requires t.Branch?
    ensures Pays(t, Inserted(Splayed(t, key), node), Turns(t, key), InsertFee(Size(t) + 1))
    ensures Size(Inserted(Splayed(t, key), node)) == Size(t) + 1
  {
    hide *;
    SplayedIs(t, key);
    FindPays(t, key);
    AbovePays(Splayed(t, key), node);
    PaysThen(t, Splayed(t, key), Inserted(Splayed(t, key), node), Turns(t, key), 0, LookFee(Size(t) + 1), Size(t) + 1);
    InsertFeeIs(Size(t) + 1);
  }

  lemma InsertFeeIs(n: nat)
    ensures InsertFee(n) == n * LookFee(n)
  {}

  /** Without a left subtree the right one is left. */
  lemma RightPays(t: Tree)
    requires t.Branch? && t.left.Leaf?
    ensures Pays(t, t.right, 0, LookFee(Size(t))) && Size(t.right) <= Size(t)
  {
    hide *;
    WeightOf(t);
    LeafIs();
    Units(Size(t));
    AtLeastOne(Size(t), Weight(t.right));
    PaysIs(t, t.right, 0, 1);
    PowNone();
    Units(Weight(t.right));
    Units(Weight(t));
    FeesGrow(Size(t), Size(t));
    PaysMore(t, t.right, 0, 1, LookFee(Size(t)));
  }

  /** The left subtree is splayed, and the right one put on its empty side. */
  lemma JoinPays(t: Tree, key: real)
    requires t.Branch? && t.left.Branch? && Splayed(t.left, key).right.Leaf?
    ensures var l := Splayed(t.left, key); var t' := Branch(l.node, l.left, t.right);
      Pays(t, t', Turns(t.left, key), LookFee(Size(t))) && Size(t') <= Size(t)
  {
    hide *;
    SplayedIs(t.left, key);
    var l, n := Splayed(t.left, key), Size(t);
    var t' := Branch(l.node, l.left, t.right);
    WeightOf(t);
    WeightOf(t');
    WeightOf(l);
    LeafIs();
    SplayPays(t.left, key, n);
    PaysIs(t.left, l, Turns(t.left, key), LookFee(n));
    PaysIs(t, t', Turns(t.left, key), LookFee(n));
    Units(Times(Size(l), Weight(l.left)));
    JoinWeight(Pow2(Turns(t.left, key)), LookFee(n), n, Size(t'), Size(l), Weight(l.left), Weight(t.left), Weight(t.right));
  }

  lemma JoinWeight(p: nat, f: nat, n: nat, s: nat, k: nat, a: nat, l: nat, r: nat)
    requires Times(p, Times(k, a)) <= Times(f, l) && s <= n && k > 0
    ensures Times(p, Times(Times(s, a), r)) <= Times(f, Times(Times(n, l), r))
  {
    hide *;
    AtLeastOne(k, a);
    TimesUp(p, p, a, Times(k, a));
    TimesUp(s, n, Times(p, a), Times(f, l));
    TimesUp(Times(s, Times(p, a)), Times(n, Times(f, l)), r, r);
    Move(p, s, a, r);
    Move(f, n, l, r);
  }

  lemma Move(p: nat, s: nat, a: nat, r: nat)
    ensures Times(p, Times(Times(s, a), r)) == Times(Times(s, Times(p, a)), r)
  {
    assert p * ((s * a) * r) == (s * (p * a)) * r;
  }

  lemma RemovePays(t: Tree, key: real)
    requires t.Branch?
    ensures Pays(t, Splayed(t, key), Turns(t, key), RemoveFee(Size(t) + 1)) && Size(Splayed(t, key)) == Size(t)
  {
    hide *;
    FindPays(t, key);
    LookLess(t, Splayed(t, key), Turns(t, key), Size(t) + 1);
  }

  lemma RemovedPays(t: Tree, key: real, t': Tree, more: nat)
    requires t.Branch? && Pays(Splayed(t, key), t', more, LookFee(Size(t)))
    ensures Pays(t, t', Turns(t, key) + more, RemoveFee(Size(t) + 1))
  {
    hide *;
    var n := Size(t) + 1;
    FindPays(t, key);
    SizePositive(t);
    FeesGrow(Size(t), n);
    PaysMore(Splayed(t, key), t', more, LookFee(Size(t)), LookFee(n));
    PaysThen(t, Splayed(t, key), t', Turns(t, key), more, LookFee(n), LookFee(n));
    RemoveFeeIs(n);
  }

  lemma SizePositive(t: Tree)
    requires t.Branch?
    ensures Size(t) > 0
  {}

  lemma RemoveFeeIs(n: nat)
    ensures RemoveFee(n) == LookFee(n) * LookFee(n)
  {}

  // ---- runs

  lemma NoneDone(t: Tree, fee: nat)
    ensures Pays(t, t, 0, Power(fee, 0))
  {
    NothingPays(t);
  }

  lemma OneMore(t: Tree, t1: Tree, t2: Tree, a: nat, b: nat, m: nat, n: nat, i: nat)
    requires 0 < m <= n && Pays(t, t1, a, Power(RemoveFee(n), i)) && Pays(t1, t2, b, RemoveFee(m))
    ensures Pays(t, t2, a + b, Power(RemoveFee(n), i + 1))
  {
    hide *;
    FeesGrow(m, n);
    PaysMore(t1, t2, b, RemoveFee(m), RemoveFee(n));
    PaysThen(t, t1, t2, a, b, Power(RemoveFee(n), i), RemoveFee(n));
    PowerMore(RemoveFee(n), i);
  }

  lemma PowerMore(b: nat, i: nat)
    ensures Power(b, i + 1) == b * Power(b, i)
  {}

  lemma {:induction false} PowerSum(b: nat, i: nat, j: nat)
    ensures Power(b, i + j) == Times(Power(b, i), Power(b, j))
    decreases i
  {
    if i > 0 {
      PowerSum(b, i - 1, j);
      Regroup(b, Power(b, i - 1), Power(b, j));
    } else {
      Units(Power(b, j));
    }
  }

  lemma {:induction false} PowerUp(a: nat, b: nat, i: nat)
    requires a <= b
    ensures Power(a, i) <= Power(b, i)
    decreases i
  {
    if i > 0 {
      PowerUp(a, b, i - 1);
      MulUp(a, b, Power(a, i - 1), Power(b, i - 1));
    }
  }

  /** No tree weighs more than its size to the power of its size. */
  lemma {:induction false} WeightAtMost(t: Tree)
    ensures Weight(t) <= Power(Size(t), Size(t))
    decreases t
  {
    if t.Branch? {
      var n, l, r := Size(t), Size(t.left), Size(t.right);
      WeightAtMost(t.left);
      WeightAtMost(t.right);
      WeightOf(t);
      hide *;
      PowerUp(l, n, l);
      PowerUp(r, n, r);
      TimesUp(Weight(t.left), Power(n, l), Weight(t.right), Power(n, r));
      PowerSum(n, l, r);
      Regroup(n, Weight(t.left), Weight(t.right));
      TimesUp(n, n, Times(Weight(t.left), Weight(t.right)), Power(n, l + r));
      PowerMore(n, l + r);
      ProductIs(n, Power(n, l + r));
    } else {
      assert Power(0, 0) == 1;
    }
  }

  lemma TurnsOf(t: Tree, t': Tree, turns: nat, fee: nat)
    requires Pays(t, t', turns, fee)
    ensures Pow2(turns) <= fee * Power(Size(t), Size(t))
  {
    WeightPositive(t');
    WeightAtMost(t);
    PaysIs(t, t', turns, fee);
    hide *;
    AtLeastOne(Weight(t'), Pow2(turns));
    Regroup(Weight(t'), Pow2(turns), 1);
    TimesUp(fee, fee, Weight(t), Power(Size(t), Size(t)));
    ProductIs(fee, Power(Size(t), Size(t)));
  }

  lemma WeightPositive(t: Tree)
    ensures Weight(t) > 0
  {}
}
