/** The top-down splay tree of the splay benchmark: nodes, pointers, and the sorted map they stand for. */
module Splay {

  import opened SplayTrees
  import opened SplayCost

  /** Where the pointers of nodes lead. */
  datatype Links = Links(left: map<Node, Node?>, right: map<Node, Node?>)

  ghost function SetLeft(k: Links, x: Node, y: Node?): Links {
    k.(left := k.left[x := y])
  }

  ghost function SetRight(k: Links, x: Node, y: Node?): Links {
    k.(right := k.right[x := y])
  }

  ghost predicate Knows(k: Links, x: Node) {
    x in k.left && x in k.right
  }

  /** The pointers below the root make this tree. */
  ghost predicate Shape(t: Tree, k: Links) {
    t.Branch? ==>
      && Knows(k, t.node) && k.left[t.node] == Root(t.left) && k.right[t.node] == Root(t.right)
      && Shape(t.left, k) && Shape(t.right, k)
  }

  /** The pointers of these nodes are as `k` says. */
  ghost predicate Holds(k: Links, s: seq<Node>)
    reads s
  {
    forall x :: x in s ==> Knows(k, x) && k.left[x] == x.left && k.right[x] == x.right
  }

  /** Keys grow strictly, from left to right. */
  ghost predicate Ordered(s: seq<Node>) {
    forall i, j :: 0 <= i < j < |s| ==> s[i].key < s[j].key
  }

  // ---- splaying: two trees open at one end, and the tree between them

  /** A node of an open tree with the subtree on its closed side. */
  datatype Cell = Cell(node: Node, side: Tree)

  /** The tree of smaller keys `l`, the tree not yet looked at, the tree of greater keys `r`; the dummy node's
      right field leads to `l`, its left field to `r`. */
  datatype View = View(dummy: Node, l: seq<Cell>, t: Tree, r: seq<Cell>)

  ghost function Front(c: seq<Cell>): seq<Cell>
    requires c != []
  {
    c[..|c| - 1]
  }

  ghost function Last(c: seq<Cell>): Cell
    requires c != []
  {
    c[|c| - 1]
  }

  /** The node with the open end. */
  ghost function EndOf(dummy: Node, c: seq<Cell>): Node {
    if c == [] then dummy else Last(c).node
  }

  ghost function LOrder(l: seq<Cell>): seq<Node> {
    if l == [] then [] else LOrder(Front(l)) + Inorder(Last(l).side) + [Last(l).node]
  }

  ghost function ROrder(r: seq<Cell>): seq<Node> {
    if r == [] then [] else [Last(r).node] + Inorder(Last(r).side) + ROrder(Front(r))
  }

  /** From `dummy` right pointers lead through the nodes of `l`. */
  ghost predicate OpenL(dummy: Node, l: seq<Cell>, k: Links) {
    l != [] ==>
      var f, z := Front(l), Last(l);
      && OpenL(dummy, f, k) && Knows(k, EndOf(dummy, f)) && k.right[EndOf(dummy, f)] == z.node
      && Knows(k, z.node) && k.left[z.node] == Root(z.side) && Shape(z.side, k)
  }

  /** From `dummy` left pointers lead through the nodes of `r`. */
  ghost predicate OpenR(dummy: Node, r: seq<Cell>, k: Links) {
    r != [] ==>
      var f, z := Front(r), Last(r);
      && OpenR(dummy, f, k) && Knows(k, EndOf(dummy, f)) && k.left[EndOf(dummy, f)] == z.node
      && Knows(k, z.node) && k.right[z.node] == Root(z.side) && Shape(z.side, k)
  }

  ghost function Order(v: View): seq<Node> {
    LOrder(v.l) + Inorder(v.t) + ROrder(v.r)
  }

  /** The nodes `s`, in order, fall into the three trees, on either side of the key looked for. */
  ghost predicate Split(v: View, k: Links, s: seq<Node>, key: real) {
    && Order(v) == s && Ordered(s) && v.dummy !in s && Knows(k, v.dummy)
    && OpenL(v.dummy, v.l, k) && OpenR(v.dummy, v.r, k) && Shape(v.t, k)
    && (forall x :: x in LOrder(v.l) ==> x.key < key)
    && (forall x :: x in ROrder(v.r) ==> x.key > key)
  }

  /** No node is in two of three parts. */
  lemma Apart(a: seq<Node>, b: seq<Node>, c: seq<Node>)
    requires Ordered(a + b + c)
    ensures forall x, y :: x in a && y in b ==> x.key < y.key
    ensures forall x, y :: x in a && y in c ==> x.key < y.key
    ensures forall x, y :: x in b && y in c ==> x.key < y.key
    ensures Ordered(a) && Ordered(b) && Ordered(c)
  {
    var s := a + b + c;
    forall i, j | 0 <= i < |a| && 0 <= j < |b|
      ensures a[i].key < b[j].key
    {
      assert s[i] == a[i] && s[|a| + j] == b[j];
    }
    forall i, j | 0 <= i < |a| && 0 <= j < |c|
      ensures a[i].key < c[j].key
    {
      assert s[i] == a[i] && s[|a| + |b| + j] == c[j];
    }
    forall i, j | 0 <= i < |b| && 0 <= j < |c|
      ensures b[i].key < c[j].key
    {
      assert s[|a| + i] == b[i] && s[|a| + |b| + j] == c[j];
    }
    forall i, j | 0 <= i < j < |b|
      ensures b[i].key < b[j].key
    {
      assert s[|a| + i] == b[i] && s[|a| + j] == b[j];
    }
    forall i, j | 0 <= i < j < |c|
      ensures c[i].key < c[j].key
    {
      assert s[|a| + |b| + i] == c[i] && s[|a| + |b| + j] == c[j];
    }
    forall i, j | 0 <= i < j < |a|
      ensures a[i].key < a[j].key
    {
      assert s[i] == a[i] && s[j] == a[j];
    }
  }

  /** The same pointers at these nodes. */
  ghost predicate Same(k: Links, k': Links, x: Node) {
    Knows(k, x) ==> Knows(k', x) && k'.left[x] == k.left[x] && k'.right[x] == k.right[x]
  }

  lemma {:induction false} ShapeKept(t: Tree, k: Links, k': Links)
    requires Shape(t, k) && forall x :: x in Inorder(t) ==> Same(k, k', x)
    ensures Shape(t, k')
  {
    if t.Branch? {
      assert t.node in Inorder(t);
      ShapeKept(t.left, k, k');
      ShapeKept(t.right, k, k');
    }
  }

  lemma ShapeAway(t: Tree, k: Links, k': Links, p: Node, q: Node)
    requires Shape(t, k) && p !in Inorder(t) && q !in Inorder(t) && forall x :: x != p && x != q ==> Same(k, k', x)
    ensures Shape(t, k')
  {
    ShapeKept(t, k, k');
  }

  lemma Regroup3(a: seq<Node>, x: Node, b: seq<Node>, y: Node, c: seq<Node>)
    ensures (a + [x] + b) + [y] + c == a + [x] + (b + [y] + c)
  {}

  /** Only the open end's right pointer has changed. */
  lemma {:induction false} OpenLKept(dummy: Node, l: seq<Cell>, k: Links, k': Links)
    requires OpenL(dummy, l, k) && Ordered(LOrder(l)) && dummy !in LOrder(l)
    requires forall x :: x in LOrder(l) && x != EndOf(dummy, l) ==> Same(k, k', x)
    requires l != [] && Knows(k, dummy) ==> Knows(k', dummy) && k'.right[dummy] == k.right[dummy]
    requires l != [] ==> Knows(k', Last(l).node) && k'.left[Last(l).node] == k.left[Last(l).node]
    ensures OpenL(dummy, l, k')
    decreases |l|
  {
    if l != [] {
      var f, z := Front(l), Last(l);
      Apart(LOrder(f), Inorder(z.side), [z.node]);
      assert z.node in [z.node];
      if f != [] {
        assert Last(f).node in LOrder(f);
        assert Same(k, k', Last(f).node);
      }
      OpenLKept(dummy, f, k, k');
      ShapeKept(z.side, k, k');
    }
  }

  /** Only the open end's left pointer has changed. */
  lemma {:induction false} OpenRKept(dummy: Node, r: seq<Cell>, k: Links, k': Links)
    requires OpenR(dummy, r, k) && Ordered(ROrder(r)) && dummy !in ROrder(r)
    requires forall x :: x in ROrder(r) && x != EndOf(dummy, r) ==> Same(k, k', x)
    requires r != [] && Knows(k, dummy) ==> Knows(k', dummy) && k'.left[dummy] == k.left[dummy]
    requires r != [] ==> Knows(k', Last(r).node) && k'.right[Last(r).node] == k.right[Last(r).node]
    ensures OpenR(dummy, r, k')
    decreases |r|
  {
    if r != [] {
      var f, z := Front(r), Last(r);
      Apart([z.node], Inorder(z.side), ROrder(f));
      assert z.node in [z.node];
      if f != [] {
        assert Last(f).node in ROrder(f);
        assert Same(k, k', Last(f).node);
      }
      OpenRKept(dummy, f, k, k');
      ShapeKept(z.side, k, k');
    }
  }

  // ---- the steps of a splay

  lemma EndIn(dummy: Node, l: seq<Cell>, r: seq<Cell>)
    ensures l != [] ==> EndOf(dummy, l) in LOrder(l)
    ensures r != [] ==> EndOf(dummy, r) in ROrder(r)
  {}

  /** What a split says, part by part. */
  lemma SplitParts(v: View, k: Links, s: seq<Node>, key: real)
    requires Split(v, k, s, key)
    ensures Order(v) == s && Ordered(s) && v.dummy !in s && Knows(k, v.dummy)
    ensures OpenL(v.dummy, v.l, k) && OpenR(v.dummy, v.r, k) && Shape(v.t, k)
    ensures forall x :: x in LOrder(v.l) ==> x.key < key && x in s
    ensures forall x :: x in ROrder(v.r) ==> x.key > key && x in s
    ensures forall x :: x in Inorder(v.t) ==> x in s
    ensures Ordered(LOrder(v.l)) && Ordered(Inorder(v.t)) && Ordered(ROrder(v.r))
    ensures forall x :: x in LOrder(v.l) ==> x != EndOf(v.dummy, v.r)
    ensures forall x :: x in Inorder(v.t) ==> x != EndOf(v.dummy, v.l) && x != EndOf(v.dummy, v.r) && x !in LOrder(v.l) && x !in ROrder(v.r)
    ensures forall x :: x in ROrder(v.r) ==> x != EndOf(v.dummy, v.l)
    ensures v.l != [] ==> EndOf(v.dummy, v.l) == Last(v.l).node && Last(v.l).node in LOrder(v.l) && Knows(k, Last(v.l).node)
    ensures v.r != [] ==> EndOf(v.dummy, v.r) == Last(v.r).node && Last(v.r).node in ROrder(v.r) && Knows(k, Last(v.r).node)
    ensures v.l == [] ==> EndOf(v.dummy, v.l) == v.dummy
    ensures v.r == [] ==> EndOf(v.dummy, v.r) == v.dummy
  {
    Apart(LOrder(v.l), Inorder(v.t), ROrder(v.r));
    OpenLNodes(v.dummy, v.l, k);
    OpenRNodes(v.dummy, v.r, k);
  }

  lemma SplitIntro(v: View, k: Links, s: seq<Node>, key: real)
    requires Order(v) == s && Ordered(s) && v.dummy !in s && Knows(k, v.dummy)
    requires OpenL(v.dummy, v.l, k) && OpenR(v.dummy, v.r, k) && Shape(v.t, k)
    requires forall x :: x in LOrder(v.l) ==> x.key < key
    requires forall x :: x in ROrder(v.r) ==> x.key > key
    ensures Split(v, k, s, key)
  {}

  /** What a tree says about its root and its subtrees. */
  lemma BranchParts(t: Tree, k: Links)
    requires Shape(t, k) && t.Branch? && Ordered(Inorder(t))
    ensures Knows(k, t.node) && k.left[t.node] == Root(t.left) && k.right[t.node] == Root(t.right)
    ensures Shape(t.left, k) && Shape(t.right, k) && Ordered(Inorder(t.left)) && Ordered(Inorder(t.right))
    ensures Inorder(t) == Inorder(t.left) + [t.node] + Inorder(t.right) && t.node in Inorder(t)
    ensures forall x :: x in Inorder(t.left) ==> x.key < t.node.key && x in Inorder(t)
    ensures forall x :: x in Inorder(t.right) ==> x.key > t.node.key && x in Inorder(t)
    ensures t.left.Branch? ==> Root(t.left) == t.left.node
    ensures t.right.Branch? ==> Root(t.right) == t.right.node
  {
    Apart(Inorder(t.left), [t.node], Inorder(t.right));
    assert t.node in [t.node];
  }

  lemma BranchIntro(t: Tree, k: Links)
    requires t.Branch? && Knows(k, t.node) && k.left[t.node] == Root(t.left) && k.right[t.node] == Root(t.right)
    requires Shape(t.left, k) && Shape(t.right, k)
    ensures Shape(t, k) && Root(t) == t.node && Inorder(t) == Inorder(t.left) + [t.node] + Inorder(t.right)
  {}

  /** The middle tree is another one with the same nodes in the same order. */
  lemma OrderSame(v: View, t: Tree)
    requires Inorder(t) == Inorder(v.t)
    ensures Order(v.(t := t)) == Order(v)
  {}

  ghost function RotateRightLinks(t: Tree, k: Links): Links
    requires t.Branch? && t.left.Branch?
  {
    SetRight(SetLeft(k, t.node, Root(t.left.right)), t.left.node, t.node)
  }

  lemma RotateRightTree(t: Tree, k: Links)
    requires Shape(t, k) && Ordered(Inorder(t)) && t.Branch? && t.left.Branch?
    ensures Shape(RotatedRight(t), RotateRightLinks(t, k)) && Inorder(RotatedRight(t)) == Inorder(t)
    ensures forall x :: x !in Inorder(t) ==> Same(k, RotateRightLinks(t, k), x)
    ensures Knows(k, t.node) && Knows(k, t.left.node) && k.left[t.node] == t.left.node
    ensures k.right[t.left.node] == Root(t.left.right) && t.node in Inorder(t) && t.left.node in Inorder(t)
    ensures t.node != t.left.node
  {
    hide *;
    var k' := RotateRightLinks(t, k);
    BranchParts(t, k);
    BranchParts(t.left, k);
    RotateRightFacts(t, k);
    RotateRightNodes(t);
    ShapeAway(t.left.left, k, k', t.node, t.left.node);
    ShapeAway(t.left.right, k, k', t.node, t.left.node);
    ShapeAway(t.right, k, k', t.node, t.left.node);
    BranchIntro(Branch(t.node, t.left.right, t.right), k');
    BranchIntro(RotatedRight(t), k');
    RotateRightOrder(t);
  }

  lemma RotateRightFacts(t: Tree, k: Links)
    requires t.Branch? && t.left.Branch? && Knows(k, t.node) && Knows(k, t.left.node) && t.node != t.left.node
    requires k.right[t.left.node] == Root(t.left.right)
    ensures var k' := RotateRightLinks(t, k);
      && Knows(k', t.node) && Knows(k', t.left.node)
      && k'.left[t.left.node] == k.left[t.left.node] && k'.right[t.left.node] == t.node
      && k'.left[t.node] == k.right[t.left.node] && k'.right[t.node] == k.right[t.node]
    ensures forall x :: x != t.node && x != t.left.node ==> Same(k, RotateRightLinks(t, k), x)
    ensures RotatedRight(t).Branch? && RotatedRight(t).node == t.left.node && RotatedRight(t).right == Branch(t.node, t.left.right, t.right)
    ensures RotatedRight(t).left == t.left.left && Root(Branch(t.node, t.left.right, t.right)) == t.node
  {}

  lemma RotateRightOrder(t: Tree)
    requires t.Branch? && t.left.Branch?
    ensures Inorder(RotatedRight(t)) == Inorder(t)
  {
    Regroup3(Inorder(t.left.left), t.left.node, Inorder(t.left.right), t.node, Inorder(t.right));
  }

  lemma RotateRightNodes(t: Tree)
    requires t.Branch? && t.left.Branch? && Ordered(Inorder(t))
    ensures t.node !in Inorder(t.left.left) && t.left.node !in Inorder(t.left.left)
    ensures t.node !in Inorder(t.left.right) && t.left.node !in Inorder(t.left.right)
    ensures t.node !in Inorder(t.right) && t.left.node !in Inorder(t.right)
  {
    hide Ordered;
    Apart(Inorder(t.left), [t.node], Inorder(t.right));
    Apart(Inorder(t.left.left), [t.left.node], Inorder(t.left.right));
    assert t.left.node in Inorder(t.left);
    assert t.node in [t.node] && t.left.node in [t.left.node];
  }

  lemma RotateRight(v: View, k: Links, s: seq<Node>, key: real)
    requires Split(v, k, s, key) && v.t.Branch? && v.t.left.Branch?
    ensures Split(v.(t := RotatedRight(v.t)), RotateRightLinks(v.t, k), s, key)
    ensures Knows(k, v.t.node) && Knows(k, v.t.left.node) && k.left[v.t.node] == v.t.left.node
    ensures k.right[v.t.left.node] == Root(v.t.left.right) && v.t.node in s && v.t.left.node in s
    ensures v.t.node != v.t.left.node
  {
    hide *;
    SplitParts(v, k, s, key);
    RotateRightTree(v.t, k);
    OrderSame(v, RotatedRight(v.t));
    SplitElsewhere(v, k, RotateRightLinks(v.t, k), s, key, RotatedRight(v.t));
  }

  ghost function RotateLeftLinks(t: Tree, k: Links): Links
    requires t.Branch? && t.right.Branch?
  {
    SetLeft(SetRight(k, t.node, Root(t.right.left)), t.right.node, t.node)
  }

  lemma RotateLeftTree(t: Tree, k: Links)
    requires Shape(t, k) && Ordered(Inorder(t)) && t.Branch? && t.right.Branch?
    ensures Shape(RotatedLeft(t), RotateLeftLinks(t, k)) && Inorder(RotatedLeft(t)) == Inorder(t)
    ensures forall x :: x !in Inorder(t) ==> Same(k, RotateLeftLinks(t, k), x)
    ensures Knows(k, t.node) && Knows(k, t.right.node) && k.right[t.node] == t.right.node
    ensures k.left[t.right.node] == Root(t.right.left) && t.node in Inorder(t) && t.right.node in Inorder(t)
    ensures t.node != t.right.node
  {
    hide *;
    var k' := RotateLeftLinks(t, k);
    BranchParts(t, k);
    BranchParts(t.right, k);
    RotateLeftFacts(t, k);
    RotateLeftNodes(t);
    ShapeAway(t.left, k, k', t.node, t.right.node);
    ShapeAway(t.right.left, k, k', t.node, t.right.node);
    ShapeAway(t.right.right, k, k', t.node, t.right.node);
    BranchIntro(Branch(t.node, t.left, t.right.left), k');
    BranchIntro(RotatedLeft(t), k');
    RotateLeftOrder(t);
  }

  lemma RotateLeftFacts(t: Tree, k: Links)
    requires t.Branch? && t.right.Branch? && Knows(k, t.node) && Knows(k, t.right.node) && t.node != t.right.node
    requires k.left[t.right.node] == Root(t.right.left)
    ensures var k' := RotateLeftLinks(t, k);
      && Knows(k', t.node) && Knows(k', t.right.node)
      && k'.right[t.right.node] == k.right[t.right.node] && k'.left[t.right.node] == t.node
      && k'.right[t.node] == k.left[t.right.node] && k'.left[t.node] == k.left[t.node]
    ensures forall x :: x != t.node && x != t.right.node ==> Same(k, RotateLeftLinks(t, k), x)
    ensures RotatedLeft(t).Branch? && RotatedLeft(t).node == t.right.node && RotatedLeft(t).left == Branch(t.node, t.left, t.right.left)
    ensures RotatedLeft(t).right == t.right.right && Root(Branch(t.node, t.left, t.right.left)) == t.node
  {}

  lemma RotateLeftOrder(t: Tree)
    requires t.Branch? && t.right.Branch?
    ensures Inorder(RotatedLeft(t)) == Inorder(t)
  {
    Regroup3(Inorder(t.left), t.node, Inorder(t.right.left), t.right.node, Inorder(t.right.right));
  }

  lemma RotateLeftNodes(t: Tree)
    requires t.Branch? && t.right.Branch? && Ordered(Inorder(t))
    ensures t.node !in Inorder(t.left) && t.right.node !in Inorder(t.left)
    ensures t.node !in Inorder(t.right.left) && t.right.node !in Inorder(t.right.left)
    ensures t.node !in Inorder(t.right.right) && t.right.node !in Inorder(t.right.right)
  {
    hide Ordered;
    Apart(Inorder(t.left), [t.node], Inorder(t.right));
    Apart(Inorder(t.right.left), [t.right.node], Inorder(t.right.right));
    assert t.right.node in Inorder(t.right);
    assert t.node in [t.node] && t.right.node in [t.right.node];
  }

  lemma RotateLeft(v: View, k: Links, s: seq<Node>, key: real)
    requires Split(v, k, s, key) && v.t.Branch? && v.t.right.Branch?
    ensures Split(v.(t := RotatedLeft(v.t)), RotateLeftLinks(v.t, k), s, key)
    ensures Knows(k, v.t.node) && Knows(k, v.t.right.node) && k.right[v.t.node] == v.t.right.node
    ensures k.left[v.t.right.node] == Root(v.t.right.left) && v.t.node in s && v.t.right.node in s
    ensures v.t.node != v.t.right.node
  {
    hide *;
    SplitParts(v, k, s, key);
    RotateLeftTree(v.t, k);
    OrderSame(v, RotatedLeft(v.t));
    SplitElsewhere(v, k, RotateLeftLinks(v.t, k), s, key, RotatedLeft(v.t));
  }

  /** Changes in the middle tree leave the open trees alone. */
  lemma Elsewhere(v: View, k: Links, k': Links)
    requires OpenL(v.dummy, v.l, k) && OpenR(v.dummy, v.r, k) && Ordered(Order(v)) && v.dummy !in Order(v)
    requires forall x :: x !in Inorder(v.t) ==> Same(k, k', x)
    ensures OpenL(v.dummy, v.l, k') && OpenR(v.dummy, v.r, k')
  {
    Apart(LOrder(v.l), Inorder(v.t), ROrder(v.r));
    EndIn(v.dummy, v.l, v.r);
    assert Same(k, k', v.dummy);
    OpenLNodes(v.dummy, v.l, k);
    OpenRNodes(v.dummy, v.r, k);
    hide OpenL;
    hide OpenR;
    hide Ordered;
    hide LOrder;
    hide ROrder;
    hide Inorder;
    if v.l != [] {
      assert Same(k, k', Last(v.l).node);
    }
    if v.r != [] {
      assert Same(k, k', Last(v.r).node);
    }
    OpenLKept(v.dummy, v.l, k, k');
    OpenRKept(v.dummy, v.r, k, k');
  }

  lemma SplitElsewhere(v: View, k: Links, k': Links, s: seq<Node>, key: real, t: Tree)
    requires Split(v, k, s, key) && (forall x :: x !in Inorder(v.t) ==> Same(k, k', x)) && Shape(t, k')
    requires Order(v.(t := t)) == Order(v)
    ensures Split(v.(t := t), k', s, key)
  {
    hide *;
    SplitParts(v, k, s, key);
    Elsewhere(v, k, k');
    DummySame(v, k, k', s);
    SplitIntro(v.(t := t), k', s, key);
  }

  lemma DummySame(v: View, k: Links, k': Links, s: seq<Node>)
    requires Knows(k, v.dummy) && v.dummy !in s && Order(v) == s && forall x :: x !in Inorder(v.t) ==> Same(k, k', x)
    ensures Knows(k', v.dummy)
  {
    assert Same(k, k', v.dummy);
  }

  lemma OpenLNodes(dummy: Node, l: seq<Cell>, k: Links)
    requires OpenL(dummy, l, k)
    ensures l != [] ==> Knows(k, Last(l).node)
  {}

  lemma OpenRNodes(dummy: Node, r: seq<Cell>, k: Links)
    requires OpenR(dummy, r, k)
    ensures r != [] ==> Knows(k, Last(r).node)
  {}

  /** One more node at the open end. */
  lemma OpenLMore(dummy: Node, l: seq<Cell>, z: Cell, k: Links)
    requires OpenL(dummy, l, k) && Knows(k, EndOf(dummy, l)) && k.right[EndOf(dummy, l)] == z.node
    requires Knows(k, z.node) && k.left[z.node] == Root(z.side) && Shape(z.side, k)
    ensures OpenL(dummy, l + [z], k) && LOrder(l + [z]) == LOrder(l) + Inorder(z.side) + [z.node]
  {
    assert Front(l + [z]) == l;
  }

  lemma OpenRMore(dummy: Node, r: seq<Cell>, z: Cell, k: Links)
    requires OpenR(dummy, r, k) && Knows(k, EndOf(dummy, r)) && k.left[EndOf(dummy, r)] == z.node
    requires Knows(k, z.node) && k.right[z.node] == Root(z.side) && Shape(z.side, k)
    ensures OpenR(dummy, r + [z], k) && ROrder(r + [z]) == [z.node] + Inorder(z.side) + ROrder(r)
  {
    assert Front(r + [z]) == r;
  }

  lemma OrderIs(v: View)
    ensures Order(v) == LOrder(v.l) + Inorder(v.t) + ROrder(v.r)
  {}

  /** The current node with its greater keys goes to the tree of greater keys. */
  ghost function LinkedRight(v: View): View
    requires v.t.Branch?
  {
    v.(t := v.t.left, r := v.r + [Cell(v.t.node, v.t.right)])
  }

  ghost function LinkRightLinks(v: View, k: Links): Links
    requires v.t.Branch?
  {
    SetLeft(k, EndOf(v.dummy, v.r), v.t.node)
  }

  lemma LinkRightOpen(v: View, k: Links, s: seq<Node>, key: real)
    requires Split(v, k, s, key) && v.t.Branch?
    ensures var k' := LinkRightLinks(v, k);
      OpenL(v.dummy, v.l, k') && OpenR(v.dummy, v.r, k') && Shape(v.t.left, k') && Shape(v.t.right, k') && Knows(k', v.dummy)
    ensures Knows(LinkRightLinks(v, k), EndOf(v.dummy, v.r)) && LinkRightLinks(v, k).left[EndOf(v.dummy, v.r)] == v.t.node
    ensures Knows(LinkRightLinks(v, k), v.t.node) && LinkRightLinks(v, k).right[v.t.node] == Root(v.t.right)
  {
    hide Shape;
    hide Inorder;
    hide Ordered;
    hide OpenL;
    hide OpenR;
    hide LOrder;
    hide ROrder;
    hide Split;
    hide Order;
    hide Root;
    hide EndOf;
    hide Front;
    hide Last;
    var k' := LinkRightLinks(v, k);
    SplitParts(v, k, s, key);
    BranchParts(v.t, k);
    OpenLKept(v.dummy, v.l, k, k');
    OpenRKept(v.dummy, v.r, k, k');
    ShapeKept(v.t.left, k, k');
    ShapeKept(v.t.right, k, k');
  }

  lemma LinkRight(v: View, k: Links, s: seq<Node>, key: real)
    requires Split(v, k, s, key) && v.t.Branch? && v.t.left.Branch? && key < v.t.node.key
    ensures Split(LinkedRight(v), LinkRightLinks(v, k), s, key)
    ensures Knows(k, v.t.node) && k.left[v.t.node] == v.t.left.node && v.t.node in s
    ensures EndOf(v.dummy, v.r) == v.dummy || EndOf(v.dummy, v.r) in s
    ensures EndOf(v.dummy, v.r) != v.t.node && v.dummy !in s
  {
    hide *;
    var z := Cell(v.t.node, v.t.right);
    SplitParts(v, k, s, key);
    BranchParts(v.t, k);
    LinkRightOpen(v, k, s, key);
    OpenRMore(v.dummy, v.r, z, LinkRightLinks(v, k));
    LinkRightOrder(v);
    LinkRightIs(v);
    OrderIs(v);
    SplitIntro(LinkedRight(v), LinkRightLinks(v, k), s, key);
  }

  lemma LinkRightIs(v: View)
    requires v.t.Branch?
    ensures LinkedRight(v) == v.(t := v.t.left, r := v.r + [Cell(v.t.node, v.t.right)])
  {}

  lemma LinkRightOrder(v: View)
    requires v.t.Branch?
    ensures Order(LinkedRight(v)) == Order(v)
  {
    var r' := v.r + [Cell(v.t.node, v.t.right)];
    assert Front(r') == v.r;
    hide Front;
  }

  /** The current node with its smaller keys goes to the tree of smaller keys. */
  ghost function LinkedLeft(v: View): View
    requires v.t.Branch?
  {
    v.(t := v.t.right, l := v.l + [Cell(v.t.node, v.t.left)])
  }

  ghost function LinkLeftLinks(v: View, k: Links): Links
    requires v.t.Branch?
  {
    SetRight(k, EndOf(v.dummy, v.l), v.t.node)
  }

  lemma LinkLeftOpen(v: View, k: Links, s: seq<Node>, key: real)
    requires Split(v, k, s, key) && v.t.Branch?
    ensures var k' := LinkLeftLinks(v, k);
      OpenL(v.dummy, v.l, k') && OpenR(v.dummy, v.r, k') && Shape(v.t.left, k') && Shape(v.t.right, k') && Knows(k', v.dummy)
    ensures Knows(LinkLeftLinks(v, k), EndOf(v.dummy, v.l)) && LinkLeftLinks(v, k).right[EndOf(v.dummy, v.l)] == v.t.node
    ensures Knows(LinkLeftLinks(v, k), v.t.node) && LinkLeftLinks(v, k).left[v.t.node] == Root(v.t.left)
  {
    hide Shape;
    hide Inorder;
    hide Ordered;
    hide OpenL;
    hide OpenR;
    hide LOrder;
    hide ROrder;
    hide Split;
    hide Order;
    hide Root;
    hide EndOf;
    hide Front;
    hide Last;
    var k' := LinkLeftLinks(v, k);
    SplitParts(v, k, s, key);
    BranchParts(v.t, k);
    OpenLKept(v.dummy, v.l, k, k');
    OpenRKept(v.dummy, v.r, k, k');
    ShapeKept(v.t.left, k, k');
    ShapeKept(v.t.right, k, k');
  }

  lemma LinkLeft(v: View, k: Links, s: seq<Node>, key: real)
    requires Split(v, k, s, key) && v.t.Branch? && v.t.right.Branch? && key > v.t.node.key
    ensures Split(LinkedLeft(v), LinkLeftLinks(v, k), s, key)
    ensures Knows(k, v.t.node) && k.right[v.t.node] == v.t.right.node && v.t.node in s
    ensures EndOf(v.dummy, v.l) == v.dummy || EndOf(v.dummy, v.l) in s
    ensures EndOf(v.dummy, v.l) != v.t.node && v.dummy !in s
  {
    hide *;
    var z := Cell(v.t.node, v.t.left);
    SplitParts(v, k, s, key);
    BranchParts(v.t, k);
    LinkLeftOpen(v, k, s, key);
    OpenLMore(v.dummy, v.l, z, LinkLeftLinks(v, k));
    LinkLeftOrder(v);
    LinkLeftIs(v);
    OrderIs(v);
    SplitIntro(LinkedLeft(v), LinkLeftLinks(v, k), s, key);
  }

  lemma LinkLeftIs(v: View)
    requires v.t.Branch?
    ensures LinkedLeft(v) == v.(t := v.t.right, l := v.l + [Cell(v.t.node, v.t.left)])
  {}

  lemma LinkLeftOrder(v: View)
    requires v.t.Branch?
    ensures Order(LinkedLeft(v)) == Order(v)
  {
    var l' := v.l + [Cell(v.t.node, v.t.left)];
    assert Front(l') == v.l;
    hide Front;
  }

  /** The tree of smaller keys, closed by `x`. */
  ghost function BuildL(l: seq<Cell>, x: Tree): Tree
    decreases |l|
  {
    if l == [] then x else BuildL(Front(l), Branch(Last(l).node, Last(l).side, x))
  }

  /** The tree of greater keys, closed by `x`. */
  ghost function BuildR(r: seq<Cell>, x: Tree): Tree
    decreases |r|
  {
    if r == [] then x else BuildR(Front(r), Branch(Last(r).node, x, Last(r).side))
  }

  lemma {:induction false} BuildLShape(dummy: Node, l: seq<Cell>, x: Tree, k: Links)
    requires OpenL(dummy, l, k) && Shape(x, k) && Knows(k, EndOf(dummy, l)) && k.right[EndOf(dummy, l)] == Root(x)
    ensures Knows(k, dummy) && Shape(BuildL(l, x), k) && k.right[dummy] == Root(BuildL(l, x))
    ensures Inorder(BuildL(l, x)) == LOrder(l) + Inorder(x)
    decreases |l|
  {
    if l != [] {
      BuildLShape(dummy, Front(l), Branch(Last(l).node, Last(l).side, x), k);
    }
  }

  lemma {:induction false} BuildRShape(dummy: Node, r: seq<Cell>, x: Tree, k: Links)
    requires OpenR(dummy, r, k) && Shape(x, k) && Knows(k, EndOf(dummy, r)) && k.left[EndOf(dummy, r)] == Root(x)
    ensures Knows(k, dummy) && Shape(BuildR(r, x), k) && k.left[dummy] == Root(BuildR(r, x))
    ensures Inorder(BuildR(r, x)) == Inorder(x) + ROrder(r)
    decreases |r|
  {
    if r != [] {
      BuildRShape(dummy, Front(r), Branch(Last(r).node, x, Last(r).side), k);
    }
  }

  /** The tree that is put together at the end. */
  ghost function Assembled(v: View): Tree
    requires v.t.Branch?
  {
    Branch(v.t.node, BuildL(v.l, v.t.left), BuildR(v.r, v.t.right))
  }

  /** The two ends are closed with the subtrees of the current node. */
  ghost function Closed(v: View, k: Links): Links
    requires v.t.Branch?
  {
    SetLeft(SetRight(k, EndOf(v.dummy, v.l), Root(v.t.left)), EndOf(v.dummy, v.r), Root(v.t.right))
  }

  lemma CloseKeeps(v: View, k: Links, s: seq<Node>, key: real)
    requires Split(v, k, s, key) && v.t.Branch?
    ensures var k2 := Closed(v, k);
      && OpenL(v.dummy, v.l, k2) && OpenR(v.dummy, v.r, k2) && Shape(v.t.left, k2) && Shape(v.t.right, k2)
      && Knows(k2, v.dummy) && Knows(k2, v.t.node) && Knows(k2, EndOf(v.dummy, v.l)) && Knows(k2, EndOf(v.dummy, v.r))
      && k2.right[EndOf(v.dummy, v.l)] == Root(v.t.left) && k2.left[EndOf(v.dummy, v.r)] == Root(v.t.right)
  {
    hide Shape;
    hide Inorder;
    hide Ordered;
    hide OpenL;
    hide OpenR;
    hide LOrder;
    hide ROrder;
    hide Split;
    hide Order;
    hide Root;
    hide EndOf;
    hide Front;
    hide Last;
    var k2 := Closed(v, k);
    SplitParts(v, k, s, key);
    BranchParts(v.t, k);
    OpenLKept(v.dummy, v.l, k, k2);
    OpenRKept(v.dummy, v.r, k, k2);
    ShapeKept(v.t.left, k, k2);
    ShapeKept(v.t.right, k, k2);
  }

  lemma CloseEnds(v: View, k: Links, s: seq<Node>, key: real)
    requires Split(v, k, s, key) && v.t.Branch?
    ensures var k2 := Closed(v, k);
      && Knows(k2, v.dummy) && Shape(BuildL(v.l, v.t.left), k2) && k2.right[v.dummy] == Root(BuildL(v.l, v.t.left))
      && Shape(BuildR(v.r, v.t.right), k2) && k2.left[v.dummy] == Root(BuildR(v.r, v.t.right))
      && Knows(k2, v.t.node)
    ensures Inorder(BuildL(v.l, v.t.left)) == LOrder(v.l) + Inorder(v.t.left)
    ensures Inorder(BuildR(v.r, v.t.right)) == Inorder(v.t.right) + ROrder(v.r)
    ensures EndOf(v.dummy, v.l) == v.dummy || EndOf(v.dummy, v.l) in s
    ensures EndOf(v.dummy, v.r) == v.dummy || EndOf(v.dummy, v.r) in s
    ensures v.t.node in s && v.t.node != EndOf(v.dummy, v.l) && v.t.node != EndOf(v.dummy, v.r) && v.t.node != v.dummy
    ensures k.left[v.t.node] == Root(v.t.left) && k.right[v.t.node] == Root(v.t.right) && Knows(k, v.t.node)
  {
    hide *;
    SplitParts(v, k, s, key);
    BranchParts(v.t, k);
    CloseKeeps(v, k, s, key);
    BuildLShape(v.dummy, v.l, v.t.left, Closed(v, k));
    BuildRShape(v.dummy, v.r, v.t.right, Closed(v, k));
  }

  /** The last pointers to be set: those of the current node, from those of the dummy. */
  ghost function Rooted(v: View, k: Links): Links
    requires v.t.Branch? && Knows(k, v.dummy)
  {
    SetRight(SetLeft(k, v.t.node, k.right[v.dummy]), v.t.node, k.left[v.dummy])
  }

  lemma RootedSame(v: View, k: Links)
    requires v.t.Branch? && Knows(k, v.dummy) && Knows(k, v.t.node)
    ensures forall x :: x != v.t.node ==> Same(k, Rooted(v, k), x)
    ensures Knows(Rooted(v, k), v.t.node) && Rooted(v, k).left[v.t.node] == k.right[v.dummy]
    ensures Rooted(v, k).right[v.t.node] == k.left[v.dummy]
  {}

  /** All the nodes are in the assembled tree, in their order. */
  lemma Assemble(v: View, k: Links, s: seq<Node>, key: real)
    requires Split(v, k, s, key) && v.t.Branch?
    ensures Knows(Closed(v, k), v.dummy) && Shape(Assembled(v), Rooted(v, Closed(v, k))) && Inorder(Assembled(v)) == s
  {
    hide *;
    CloseEnds(v, k, s, key);
    SplitParts(v, k, s, key);
    BranchParts(v.t, k);
    OrderIs(v);
    AssembledIs(v);
    var k2 := Closed(v, k);
    RootedSame(v, k2);
    ShapeKept(BuildL(v.l, v.t.left), k2, Rooted(v, k2));
    ShapeKept(BuildR(v.r, v.t.right), k2, Rooted(v, k2));
    BranchIntro(Assembled(v), Rooted(v, k2));
    Regroup(LOrder(v.l), Inorder(v.t.left), v.t.node, Inorder(v.t.right), ROrder(v.r));
  }

  lemma Regroup(a: seq<Node>, b: seq<Node>, x: Node, c: seq<Node>, d: seq<Node>)
    ensures (a + b) + [x] + (c + d) == a + (b + [x] + c) + d
  {}

  lemma AssembledIs(v: View)
    requires v.t.Branch?
    ensures Assembled(v) == Branch(v.t.node, BuildL(v.l, v.t.left), BuildR(v.r, v.t.right))
  {}

  // ---- the tree on the heap

  /** What is known at the head of the splaying loop. */
  ghost predicate Splaying(v: View, k: Links, s: seq<Node>, key: real, current: Node, left: Node, right: Node)
    reads s, v.dummy
  {
    && Split(v, k, s, key) && v.t.Branch? && current == v.t.node && left == EndOf(v.dummy, v.l) && right == EndOf(v.dummy, v.r)
    && Holds(k, s) && Holds(k, [v.dummy])
  }

  lemma SplayingParts(v: View, k: Links, s: seq<Node>, key: real, current: Node, left: Node, right: Node)
    requires Splaying(v, k, s, key, current, left, right)
    ensures Split(v, k, s, key) && v.t.Branch? && current == v.t.node && left == EndOf(v.dummy, v.l) && right == EndOf(v.dummy, v.r)
    ensures forall x :: x in s || x == v.dummy ==> Knows(k, x) && x in k.left && x in k.right && k.left[x] == x.left && k.right[x] == x.right
    ensures current in s && v.dummy !in s && (left == v.dummy || left in s) && (right == v.dummy || right in s)
    ensures current != left && current != right
    ensures current.left == null <==> v.t.left.Leaf?
    ensures current.right == null <==> v.t.right.Leaf?
    ensures v.t.left.Branch? ==> current.left == v.t.left.node && v.t.left.node in s
    ensures v.t.right.Branch? ==> current.right == v.t.right.node && v.t.right.node in s
  {
    SplitParts(v, k, s, key);
    BranchParts(v.t, k);
    hide Split;
    hide OpenL;
    hide OpenR;
    hide Order;
    hide LOrder;
    hide ROrder;
    assert v.dummy in [v.dummy];
  }

  lemma SplayingIntro(v: View, k: Links, s: seq<Node>, key: real, current: Node, left: Node, right: Node)
    requires Split(v, k, s, key) && v.t.Branch? && current == v.t.node && left == EndOf(v.dummy, v.l) && right == EndOf(v.dummy, v.r)
    requires Holds(k, s) && Holds(k, [v.dummy])
    ensures Splaying(v, k, s, key, current, left, right)
  {}

  lemma HoldsIntro(k: Links, s: seq<Node>)
    requires forall x :: x in s ==> x in k.left && x in k.right && k.left[x] == x.left && k.right[x] == x.right
    ensures Holds(k, s)
  {}

  /** The left child comes up. */
  method TurnRight(current: Node, left: Node, right: Node, ghost v: View, ghost k: Links, ghost s: seq<Node>, key: real)
    returns (tmp: Node)
    requires Splaying(v, k, s, key, current, left, right) && v.t.left.Branch?
    modifies s
    ensures Splaying(v.(t := RotatedRight(v.t)), RotateRightLinks(v.t, k), s, key, tmp, left, right)
    ensures tmp.right == current && current.left == old(current.left.right) && tmp == old(current.left)
  {
    hide *;
    SplayingParts(v, k, s, key, current, left, right);
    RotateRight(v, k, s, key);
    RotateRightIs(v.t, k);
    tmp := current.left;
    current.left := tmp.right;
    tmp.right := current;
    HoldsIntro(RotateRightLinks(v.t, k), s);
    HoldsIntro(RotateRightLinks(v.t, k), [v.dummy]);
    SplayingIntro(v.(t := RotatedRight(v.t)), RotateRightLinks(v.t, k), s, key, tmp, left, right);
  }

  lemma RotateRightIs(t: Tree, k: Links)
    requires t.Branch? && t.left.Branch? && Knows(k, t.node) && Knows(k, t.left.node) && t.node != t.left.node
    requires k.right[t.left.node] == Root(t.left.right)
    ensures RotatedRight(t).Branch? && RotatedRight(t).node == t.left.node
    ensures RotateRightLinks(t, k).left == k.left[t.node := k.right[t.left.node]]
    ensures RotateRightLinks(t, k).right == k.right[t.left.node := t.node]
  {}

  /** The right child comes up. */
  method TurnLeft(current: Node, left: Node, right: Node, ghost v: View, ghost k: Links, ghost s: seq<Node>, key: real)
    returns (tmp: Node)
    requires Splaying(v, k, s, key, current, left, right) && v.t.right.Branch?
    modifies s
    ensures Splaying(v.(t := RotatedLeft(v.t)), RotateLeftLinks(v.t, k), s, key, tmp, left, right)
    ensures tmp.left == current && current.right == old(current.right.left) && tmp == old(current.right)
  {
    hide *;
    SplayingParts(v, k, s, key, current, left, right);
    RotateLeft(v, k, s, key);
    RotateLeftIs(v.t, k);
    tmp := current.right;
    current.right := tmp.left;
    tmp.left := current;
    HoldsIntro(RotateLeftLinks(v.t, k), s);
    HoldsIntro(RotateLeftLinks(v.t, k), [v.dummy]);
    SplayingIntro(v.(t := RotatedLeft(v.t)), RotateLeftLinks(v.t, k), s, key, tmp, left, right);
  }

  lemma RotateLeftIs(t: Tree, k: Links)
    requires t.Branch? && t.right.Branch? && Knows(k, t.node) && Knows(k, t.right.node) && t.node != t.right.node
    requires k.left[t.right.node] == Root(t.right.left)
    ensures RotatedLeft(t).Branch? && RotatedLeft(t).node == t.right.node
    ensures RotateLeftLinks(t, k).right == k.right[t.node := k.left[t.right.node]]
    ensures RotateLeftLinks(t, k).left == k.left[t.right.node := t.node]
  {}

  /** The current node is passed on its left: it goes to the tree of greater keys. */
  method PassRight(current: Node, left: Node, right: Node, ghost v: View, ghost k: Links, ghost s: seq<Node>, key: real)
    returns (next: Node)
    requires Splaying(v, k, s, key, current, left, right) && v.t.left.Branch? && key < current.key
    modifies s, right`left
    ensures Splaying(LinkedRight(v), LinkRightLinks(v, k), s, key, next, left, current)
  {
    hide *;
    SplayingParts(v, k, s, key, current, left, right);
    LinkRight(v, k, s, key);
    LinkRightNow(v, k);
    right.left := current;
    next := current.left;
    HoldsIntro(LinkRightLinks(v, k), s);
    HoldsIntro(LinkRightLinks(v, k), [v.dummy]);
    SplayingIntro(LinkedRight(v), LinkRightLinks(v, k), s, key, next, left, current);
  }

  lemma LinkRightNow(v: View, k: Links)
    requires v.t.Branch?
    ensures LinkedRight(v).t == v.t.left && LinkedRight(v).dummy == v.dummy
    ensures EndOf(v.dummy, LinkedRight(v).r) == v.t.node && LinkedRight(v).l == v.l
    ensures LinkRightLinks(v, k).left == k.left[EndOf(v.dummy, v.r) := v.t.node]
    ensures LinkRightLinks(v, k).right == k.right
  {}

  /** The current node is passed on its right: it goes to the tree of smaller keys. */
  method PassLeft(current: Node, left: Node, right: Node, ghost v: View, ghost k: Links, ghost s: seq<Node>, key: real)
    returns (next: Node)
    requires Splaying(v, k, s, key, current, left, right) && v.t.right.Branch? && key > current.key
    modifies s, left`right
    ensures Splaying(LinkedLeft(v), LinkLeftLinks(v, k), s, key, next, current, right)
  {
    hide *;
    SplayingParts(v, k, s, key, current, left, right);
    LinkLeft(v, k, s, key);
    LinkLeftNow(v, k);
    left.right := current;
    next := current.right;
    HoldsIntro(LinkLeftLinks(v, k), s);
    HoldsIntro(LinkLeftLinks(v, k), [v.dummy]);
    SplayingIntro(LinkedLeft(v), LinkLeftLinks(v, k), s, key, next, current, right);
  }

  lemma LinkLeftNow(v: View, k: Links)
    requires v.t.Branch?
    ensures LinkedLeft(v).t == v.t.right && LinkedLeft(v).dummy == v.dummy
    ensures EndOf(v.dummy, LinkedLeft(v).l) == v.t.node && LinkedLeft(v).r == v.r
    ensures LinkLeftLinks(v, k).right == k.right[EndOf(v.dummy, v.l) := v.t.node]
    ensures LinkLeftLinks(v, k).left == k.left
  {}

  // ---- what is left to do on the way down

  /** What the loop comes to from here. */
  ghost function Ahead(v: View, key: real): Parts
    requires v.t.Branch?
  {
    var p := Parted(v.t, key);
    Parts(BuildL(v.l, p.smaller), p.node, BuildR(v.r, p.greater), p.turns)
  }

  /** After `n` turns: the loop comes to what it came to from `t`. */
  ghost predicate OnWay(t: Tree, v: View, key: real, n: nat) {
    && t.Branch? && v.t.Branch?
    && var p, q := Parted(t, key), Ahead(v, key);
       p.smaller == q.smaller && p.node == q.node && p.greater == q.greater && p.turns == n + q.turns
  }

  /** The loop has come to it, in `n` turns. */
  ghost predicate Arrived(t: Tree, v: View, key: real, n: nat) {
    && t.Branch? && v.t.Branch?
    && Parted(t, key) == Parts(BuildL(v.l, v.t.left), v.t.node, BuildR(v.r, v.t.right), n)
  }

  lemma SetsOut(dummy: Node, t: Tree, key: real)
    requires t.Branch?
    ensures OnWay(t, View(dummy, [], t, []), key, 0)
  {}

  lemma Stops(t: Tree, v: View, key: real, n: nat)
    requires OnWay(t, v, key, n) && (key < v.t.node.key ==> v.t.left.Leaf?) && (key > v.t.node.key ==> v.t.right.Leaf?)
    ensures Arrived(t, v, key, n + 1)
  {}

  lemma TurnsRight(t: Tree, v: View, key: real, n: nat)
    requires OnWay(t, v, key, n) && key < v.t.node.key && v.t.left.Branch? && key < v.t.left.node.key
    ensures var u := v.(t := RotatedRight(v.t));
      if u.t.left.Leaf? then Arrived(t, u, key, n + 1) else OnWay(t, LinkedRight(u), key, n + 1)
  {
    var u := v.(t := RotatedRight(v.t));
    RightBuilt(u);
  }

  lemma GoesRight(t: Tree, v: View, key: real, n: nat)
    requires OnWay(t, v, key, n) && key < v.t.node.key && v.t.left.Branch? && key >= v.t.left.node.key
    ensures OnWay(t, LinkedRight(v), key, n + 1)
  {
    RightBuilt(v);
  }

  lemma RightBuilt(v: View)
    requires v.t.Branch?
    ensures forall x :: BuildR(LinkedRight(v).r, x) == BuildR(v.r, Branch(v.t.node, x, v.t.right))
  {
    assert Front(LinkedRight(v).r) == v.r;
  }

  lemma TurnsLeft(t: Tree, v: View, key: real, n: nat)
    requires OnWay(t, v, key, n) && key > v.t.node.key && v.t.right.Branch? && key > v.t.right.node.key
    ensures var u := v.(t := RotatedLeft(v.t));
      if u.t.right.Leaf? then Arrived(t, u, key, n + 1) else OnWay(t, LinkedLeft(u), key, n + 1)
  {
    var u := v.(t := RotatedLeft(v.t));
    LeftBuilt(u);
  }

  lemma GoesLeft(t: Tree, v: View, key: real, n: nat)
    requires OnWay(t, v, key, n) && key > v.t.node.key && v.t.right.Branch? && key <= v.t.right.node.key
    ensures OnWay(t, LinkedLeft(v), key, n + 1)
  {
    LeftBuilt(v);
  }

  lemma LeftBuilt(v: View)
    requires v.t.Branch?
    ensures forall x :: BuildL(LinkedLeft(v).l, x) == BuildL(v.l, Branch(v.t.node, v.t.left, x))
  {
    assert Front(LinkedLeft(v).l) == v.l;
  }

  lemma ArrivedIs(t: Tree, v: View, key: real, n: nat)
    requires Arrived(t, v, key, n)
    ensures v.t.Branch? && Assembled(v) == Splayed(t, key) && n == Turns(t, key)
  {}

  /** The way down to the key: the nodes on it go to the two open trees, two at a time where it goes twice
      to the same side. */
  method Descend(start: Node, dummy: Node, ghost t: Tree, ghost k0: Links, ghost s: seq<Node>, key: real)
    returns (current: Node, left: Node, right: Node, ghost v: View, ghost k: Links, ghost turns: nat)
    requires t.Branch? && Splaying(View(dummy, [], t, []), k0, s, key, start, dummy, dummy)
    modifies s, dummy
    ensures Splaying(v, k, s, key, current, left, right) && v.dummy == dummy && Arrived(t, v, key, turns)
    ensures key < current.key ==> v.t.left.Leaf?
    ensures key > current.key ==> v.t.right.Leaf?
  {
    hide *;
    current, left, right, v, k, turns := start, dummy, dummy, View(dummy, [], t, []), k0, 0;
    SetsOut(dummy, t, key);
    while true
      invariant Splaying(v, k, s, key, current, left, right) && v.dummy == dummy && OnWay(t, v, key, turns)
      decreases Size(v.t)
    {
      SplayingParts(v, k, s, key, current, left, right);
      Smaller(v);
      turns := turns + 1;
      if key < current.key {
        if current.left == null {
          Stops(t, v, key, turns - 1);
          break;
        }
        if key < current.left.key {
          TurnsRight(t, v, key, turns - 1);
          current := TurnRight(current, left, right, v, k, s, key);
          k, v := RotateRightLinks(v.t, k), v.(t := RotatedRight(v.t));
          SplayingParts(v, k, s, key, current, left, right);
          Smaller(v);
          if current.left == null {
            break;
          }
        } else {
          GoesRight(t, v, key, turns - 1);
        }
        var next := PassRight(current, left, right, v, k, s, key);
        k, v := LinkRightLinks(v, k), LinkedRight(v);
        right, current := current, next;
      } else if key > current.key {
        if current.right == null {
          Stops(t, v, key, turns - 1);
          break;
        }
        if key > current.right.key {
          TurnsLeft(t, v, key, turns - 1);
          current := TurnLeft(current, left, right, v, k, s, key);
          k, v := RotateLeftLinks(v.t, k), v.(t := RotatedLeft(v.t));
          SplayingParts(v, k, s, key, current, left, right);
          Smaller(v);
          if current.right == null {
            break;
          }
        } else {
          GoesLeft(t, v, key, turns - 1);
        }
        var next := PassLeft(current, left, right, v, k, s, key);
        k, v := LinkLeftLinks(v, k), LinkedLeft(v);
        left, current := current, next;
      } else {
        Stops(t, v, key, turns - 1);
        break;
      }
    }
  }

  /** The three trees are put together below the current node. */
  method PutTogether(current: Node, left: Node, right: Node, dummy: Node, ghost v: View, ghost k: Links, ghost s: seq<Node>,
                     key: real)
    requires Splaying(v, k, s, key, current, left, right) && v.dummy == dummy
    modifies s, dummy
    ensures Knows(Closed(v, k), dummy) && Holds(Rooted(v, Closed(v, k)), s)
    ensures Shape(Assembled(v), Rooted(v, Closed(v, k))) && Inorder(Assembled(v)) == s
  {
    hide *;
    SplayingParts(v, k, s, key, current, left, right);
    CloseEnds(v, k, s, key);
    Assemble(v, k, s, key);
    ClosedIs(v, k);
    left.right := current.left;
    right.left := current.right;
    current.left := dummy.right;
    current.right := dummy.left;
    HoldsIntro(Rooted(v, Closed(v, k)), s);
  }

  lemma ClosedIs(v: View, k: Links)
    requires v.t.Branch? && Knows(Closed(v, k), v.dummy)
    ensures Closed(v, k).left == k.left[EndOf(v.dummy, v.r) := Root(v.t.right)]
    ensures Closed(v, k).right == k.right[EndOf(v.dummy, v.l) := Root(v.t.left)]
    ensures v.dummy in Closed(v, k).left && v.dummy in Closed(v, k).right
    ensures Rooted(v, Closed(v, k)).left == Closed(v, k).left[v.t.node := Closed(v, k).right[v.dummy]]
    ensures Rooted(v, Closed(v, k)).right == Closed(v, k).right[v.t.node := Closed(v, k).left[v.dummy]]
  {}

  // ---- the operations

  /** The key is that of the root, or nothing lies between the two: what is left of a greater root is
      smaller than the key, and what is right of a smaller root is greater. */
  ghost predicate Near(t: Tree, key: real)
    requires t.Branch?
  {
    && (key < t.node.key ==> forall x :: x in Inorder(t.left) ==> x.key < key)
    && (key > t.node.key ==> forall x :: x in Inorder(t.right) ==> x.key > key)
  }

  lemma AssembledNear(v: View, k: Links, s: seq<Node>, key: real)
    requires Split(v, k, s, key) && v.t.Branch?
    requires key < v.t.node.key ==> v.t.left.Leaf?
    requires key > v.t.node.key ==> v.t.right.Leaf?
    ensures Assembled(v).Branch? && Assembled(v).node == v.t.node && Near(Assembled(v), key)
  {
    CloseEnds(v, k, s, key);
    SplitParts(v, k, s, key);
    hide Split;
    hide BuildL;
    hide BuildR;
    hide Shape;
    hide Order;
    hide OpenL;
    hide OpenR;
  }

  ghost function StartLinks(k: Links, dummy: Node): Links {
    SetRight(SetLeft(k, dummy, null), dummy, null)
  }

  lemma StartSplit(dummy: Node, t: Tree, k: Links, key: real)
    requires Shape(t, k) && t.Branch? && Ordered(Inorder(t)) && dummy !in Inorder(t)
    ensures Split(View(dummy, [], t, []), StartLinks(k, dummy), Inorder(t), key)
    ensures EndOf(dummy, []) == dummy && StartLinks(k, dummy).left == k.left[dummy := null]
    ensures StartLinks(k, dummy).right == k.right[dummy := null]
  {
    hide Shape;
    hide Ordered;
    ShapeKept(t, k, StartLinks(k, dummy));
    hide Inorder;
    assert [] + Inorder(t) + [] == Inorder(t);
  }

  /** Splays the tree below `start`; its dummy's key and value are never looked at. */
  method SplayNodes(start: Node, ghost t: Tree, ghost k: Links, key: real)
    returns (current: Node, ghost t': Tree, ghost k': Links, ghost turns: nat)
    requires Shape(t, k) && t.Branch? && start == t.node && Holds(k, Inorder(t)) && Ordered(Inorder(t))
    modifies Inorder(t)
    ensures t'.Branch? && t'.node == current && Shape(t', k') && Inorder(t') == Inorder(t) && Holds(k', Inorder(t'))
    ensures Near(t', key) && t' == Splayed(t, key) && turns == Turns(t, key)
  {
    hide *;
    ghost var s := Inorder(t);
    HoldsParts(k, s);
    var dummy := new Node(0.0, Nothing);
    var left, right := dummy, dummy;
    ghost var v := View(dummy, [], t, []);
    ghost var k1 := StartLinks(k, dummy);
    StartSplit(dummy, t, k, key);
    HoldsIntro(k1, s);
    HoldsIntro(k1, [dummy]);
    SplayingIntro(v, k1, s, key, start, left, right);
    current, left, right, v, k1, turns := Descend(start, dummy, t, k1, s, key);
    SplayingParts(v, k1, s, key, current, left, right);
    AssembledNear(v, k1, s, key);
    PutTogether(current, left, right, dummy, v, k1, s, key);
    ArrivedIs(t, v, key, turns);
    t', k' := Assembled(v), Rooted(v, Closed(v, k1));
  }

  lemma HoldsParts(k: Links, s: seq<Node>)
    requires Holds(k, s)
    ensures forall x :: x in s ==> x in k.left && x in k.right && k.left[x] == x.left && k.right[x] == x.right
  {}

  /** The map that a run of nodes stands for. */
  ghost function Entries(s: seq<Node>): map<real, Payload>
    requires Ordered(s)
  {
    map x: Node | x in s :: x.key := x.value
  }

  lemma EntryOf(s: seq<Node>, key: real)
    requires Ordered(s)
    ensures key in Entries(s) <==> exists x :: x in s && x.key == key
    ensures forall x :: x in s && x.key == key ==> key in Entries(s) && Entries(s)[key] == x.value
  {}

  /** After a splay the root tells whether the key is there. */
  lemma NearFinds(t: Tree, key: real)
    requires t.Branch? && Ordered(Inorder(t)) && Near(t, key)
    ensures key in Entries(Inorder(t)) <==> t.node.key == key
    ensures t.node in Inorder(t) && (t.node.key == key ==> Entries(Inorder(t))[key] == t.node.value)
  {
    Apart(Inorder(t.left), [t.node], Inorder(t.right));
    assert t.node in [t.node];
    EntryOf(Inorder(t), key);
    forall x | x in Inorder(t) && x.key == key
      ensures t.node.key == key
    {
      assert x in Inorder(t.left) || x == t.node || x in Inorder(t.right);
    }
  }

  // ---- what the operations come to

  datatype Operation = Put(key: real, value: Payload) | Take(key: real) | LookUp(key: real)

  /** What an operation does to the entries. */
  ghost function Done(m: map<real, Payload>, op: Operation): map<real, Payload> {
    match op
    case Put(key, value) => if key in m then m else m[key := value]
    case Take(key) => m - {key}
    case LookUp(_) => m
  }

  ghost function AllDone(m: map<real, Payload>, ops: seq<Operation>): map<real, Payload>
    decreases |ops|
  {
    if ops == [] then m else Done(AllDone(m, ops[..|ops| - 1]), ops[|ops| - 1])
  }

  ghost function SplayedTo(t: Tree, key: real): Tree {
    if t.Leaf? then Leaf else Splayed(t, key)
  }

  ghost predicate AtRoot(t: Tree, key: real) {
    t.Branch? && t.node.key == key
  }

  /** The tree without its root: the greatest node of the left side, splayed up there, takes its place. */
  ghost function Joined(t: Tree): Tree
    requires t.Branch?
  {
    if t.left.Leaf? then t.right else var l := Splayed(t.left, t.node.key); Branch(l.node, l.left, t.right)
  }

  /** What an operation does to the tree; only a node that is new is not known before. */
  ghost predicate Leads(t: Tree, op: Operation, t': Tree) {
    var u := SplayedTo(t, op.key);
    match op
    case Put(key, value) =>
      if AtRoot(u, key) then t' == u
      else
        && t'.Branch? && t'.node.key == key && t'.node.value == value
        && t' == if u.Leaf? then Branch(t'.node, Leaf, Leaf) else Inserted(u, t'.node)
    case Take(key) => t' == if AtRoot(u, key) then Joined(u) else u
    case LookUp(_) => t' == u
  }

  /** The turns of its splays: one to the key, and for a removal one in what was left of it. */
  ghost function Spent(t: Tree, op: Operation): nat {
    var u := SplayedTo(t, op.key);
    (if t.Branch? then Turns(t, op.key) else 0)
    + if op.Take? && AtRoot(u, op.key) && u.left.Branch? then Turns(u.left, op.key) else 0
  }

  ghost function AllSpent(trees: seq<Tree>, ops: seq<Operation>): nat
    requires |trees| >= |ops|
    decreases |ops|
  {
    if ops == [] then 0 else
      var n := |ops| - 1;
      AllSpent(trees[..n], ops[..n]) + Spent(trees[n], ops[n])
  }

  lemma Nowhere(op: Operation)
    ensures op.Put? ==> forall x: Node :: x.key == op.key && x.value == op.value ==> Leads(Leaf, op, Branch(x, Leaf, Leaf))
    ensures !op.Put? ==> Leads(Leaf, op, Leaf)
    ensures Spent(Leaf, op) == 0
  {}

  lemma OnlySplayed(t: Tree, op: Operation)
    requires t.Branch? && (op.LookUp? || (Splayed(t, op.key).node.key == op.key <==> op.Put?))
    ensures Leads(t, op, Splayed(t, op.key)) && Spent(t, op) == Turns(t, op.key)
  {
    hide Turns;
  }

  lemma NodeAdded(t: Tree, op: Operation, node: Node)
    requires t.Branch? && op.Put? && node.key == op.key && node.value == op.value && Splayed(t, op.key).node.key != op.key
    requires Splayed(t, op.key).Branch?
    ensures Leads(t, op, Inserted(Splayed(t, op.key), node)) && Spent(t, op) == Turns(t, op.key)
  {
    hide Splayed;
    hide Turns;
  }

  lemma RootGone(t: Tree, op: Operation, more: nat)
    requires t.Branch? && op.Take? && Splayed(t, op.key).Branch? && Splayed(t, op.key).node.key == op.key
    requires more == JoinTurns(Splayed(t, op.key))
    ensures Leads(t, op, Joined(Splayed(t, op.key))) && Spent(t, op) == Turns(t, op.key) + more
  {
    hide Splayed;
    hide Turns;
    hide Joined;
  }

  ghost function JoinTurns(t: Tree): nat
    requires t.Branch?
  {
    if t.left.Leaf? then 0 else Turns(t.left, t.node.key)
  }

  lemma JoinedIs(t: Tree)
    requires t.Branch?
    ensures t.left.Leaf? ==> Joined(t) == t.right && JoinTurns(t) == 0
    ensures t.left.Branch? ==>
      var l := Splayed(t.left, t.node.key); l.Branch? && Joined(t) == Branch(l.node, l.left, t.right) && JoinTurns(t) == Turns(t.left, t.node.key)
  {
    hide Turns;
  }

  /** The entries after an operation, from what its method says. */
  lemma DoneIs(m: map<real, Payload>, m': map<real, Payload>, op: Operation)
    requires op.Put? ==> m' == if op.key in m then m else m[op.key := op.value]
    requires op.Take? ==> m' == if op.key in m then m - {op.key} else m
    requires op.LookUp? ==> m' == m
    ensures m' == Done(m, op)
  {
    if op.Take? && op.key !in m {
      assert m - {op.key} == m;
    }
  }

  lemma RunNext(m: map<real, Payload>, ops: seq<Operation>, i: nat)
    requires i < |ops|
    ensures AllDone(m, []) == m && AllDone(m, ops[..i + 1]) == Done(AllDone(m, ops[..i]), ops[i])
  {
    assert ops[..i + 1][..i] == ops[..i];
  }

  lemma RunBegins(m: map<real, Payload>, trees: seq<Tree>, ops: seq<Operation>)
    ensures ops[..0] == [] && AllDone(m, ops[..0]) == m && AllSpent(trees, ops[..0]) == 0 && ops[..|ops|] == ops
  {}

  lemma SpentNext(trees: seq<Tree>, t: Tree, ops: seq<Operation>, i: nat)
    requires i < |ops| && |trees| == i + 1
    ensures AllSpent(trees + [t], ops[..i + 1]) == AllSpent(trees, ops[..i]) + Spent(trees[i], ops[i])
  {
    assert ops[..i + 1][..i] == ops[..i] && (trees + [t])[..i] == trees[..i];
    SpentShort(trees, ops[..i]);
  }

  lemma {:induction false} SpentShort(trees: seq<Tree>, ops: seq<Operation>)
    requires |trees| >= |ops|
    ensures AllSpent(trees, ops) == AllSpent(trees[..|ops|], ops)
    decreases |ops|
  {
    if ops != [] {
      var n := |ops| - 1;
      assert trees[..|ops|][..n] == trees[..n];
    }
  }

  // ---- what the operations make of the tree

  /** The new node goes above the root: the root on one side, what was on that side of the root on the other. */
  method PutAbove(root: Node, node: Node, ghost t: Tree, ghost k: Links)
    requires t.Branch? && t.node == root && Shape(t, k) && Holds(k, Inorder(t)) && Ordered(Inorder(t)) && node !in Inorder(t)
    requires Near(t, node.key) && node.key != root.key
    modifies root, node
    ensures Holds(InsertedLinks(t, k, node), Inorder(Inserted(t, node)))
  {
    hide *;
    ghost var s, s' := Inorder(t), Inorder(Inserted(t, node));
    HoldsParts(k, s);
    NearFinds(t, node.key);
    InsertIs(t, k, node);
    InsertOrder(t, node, s, s');
    if node.key > root.key {
      node.left := root;
      node.right := root.right;
      root.right := null;
      HoldsIntro(InsertedLinks(t, k, node), s');
    } else {
      node.right := root;
      node.left := root.left;
      root.left := null;
      HoldsIntro(InsertedLinks(t, k, node), s');
    }
  }

  ghost function InsertedLinks(t: Tree, k: Links, node: Node): Links
    requires t.Branch?
  {
    if node.key > t.node.key then SetRight(SetRight(SetLeft(k, node, t.node), node, Root(t.right)), t.node, null)
    else SetLeft(SetLeft(SetRight(k, node, t.node), node, Root(t.left)), t.node, null)
  }

  lemma InsertShape(t: Tree, k: Links, node: Node)
    requires Shape(t, k) && t.Branch? && Ordered(Inorder(t)) && node !in Inorder(t)
    ensures Shape(Inserted(t, node), InsertedLinks(t, k, node)) && Root(Inserted(t, node)) == node
  {
    hide *;
    var k' := InsertedLinks(t, k, node);
    BranchParts(t, k);
    InsertIs(t, k, node);
    InsertSame(t, k, node);
    ShapeAway(t.left, k, k', t.node, node);
    ShapeAway(t.right, k, k', t.node, node);
    LeafShape(k');
    if node.key > t.node.key {
      BranchIntro(Branch(t.node, t.left, Leaf), k');
    } else {
      BranchIntro(Branch(t.node, Leaf, t.right), k');
    }
    BranchIntro(Inserted(t, node), k');
  }

  lemma LeafShape(k: Links)
    ensures Shape(Leaf, k) && Root(Leaf) == null && Inorder(Leaf) == []
  {}

  lemma InsertSame(t: Tree, k: Links, node: Node)
    requires t.Branch? && Knows(k, t.node) && k.left[t.node] == Root(t.left) && k.right[t.node] == Root(t.right) && node != t.node
    ensures var k' := InsertedLinks(t, k, node);
      && (forall x :: x != t.node && x != node ==> Same(k, k', x)) && Knows(k', t.node) && Knows(k', node)
      && (if node.key > t.node.key then
            && k'.left[node] == t.node && k'.right[node] == Root(t.right)
            && k'.left[t.node] == Root(t.left) && k'.right[t.node] == null
          else
            && k'.right[node] == t.node && k'.left[node] == Root(t.left)
            && k'.right[t.node] == Root(t.right) && k'.left[t.node] == null)
    ensures Inserted(t, node)
         == if node.key > t.node.key then Branch(node, Branch(t.node, t.left, Leaf), t.right)
            else Branch(node, t.left, Branch(t.node, Leaf, t.right))
  {}

  lemma InsertOrder(t: Tree, node: Node, s: seq<Node>, s': seq<Node>)
    requires t.Branch? && Near(t, node.key) && node.key != t.node.key && s == Inorder(t) && s' == Inorder(Inserted(t, node))
    requires Ordered(s)
    ensures Ordered(s') && node.key !in Entries(s) && Entries(s') == Entries(s)[node.key := node.value] && |s'| == |s| + 1
    ensures (forall x :: x in s' ==> x == node || x in s) && (forall x :: x in s ==> x in s') && node in s'
  {
    hide *;
    NearFinds(t, node.key);
    var a, b := Inorder(t.left), Inorder(t.right);
    InsertParts(t, node);
    if node.key > t.node.key {
      Join(a + [t.node], node, b);
    } else {
      Join(a, node, [t.node] + b);
    }
  }

  lemma InsertParts(t: Tree, node: Node)
    requires t.Branch? && Ordered(Inorder(t)) && Near(t, node.key) && node.key != t.node.key
    ensures var a, b := Inorder(t.left), Inorder(t.right);
      && (node.key > t.node.key ==>
            && Inorder(t) == (a + [t.node]) + b && Inorder(Inserted(t, node)) == (a + [t.node]) + [node] + b
            && (forall y :: y in a + [t.node] ==> y.key < node.key) && (forall y :: y in b ==> node.key < y.key))
      && (node.key < t.node.key ==>
            && Inorder(t) == a + ([t.node] + b) && Inorder(Inserted(t, node)) == a + [node] + ([t.node] + b)
            && (forall y :: y in a ==> y.key < node.key) && (forall y :: y in [t.node] + b ==> node.key < y.key))
  {
    var a, b := Inorder(t.left), Inorder(t.right);
    Apart(a, [t.node], b);
    assert t.node in [t.node];
    hide Ordered;
    InsertedInorder(t, node);
    hide Inorder;
    hide Inserted;
  }

  lemma InsertedInorder(t: Tree, node: Node)
    requires t.Branch?
    ensures var a, b := Inorder(t.left), Inorder(t.right);
      && Inorder(t) == (a + [t.node]) + b && Inorder(t) == a + ([t.node] + b)
      && Inorder(Inserted(t, node)) == if node.key > t.node.key then (a + [t.node]) + [node] + b else a + [node] + ([t.node] + b)
  {
    var a, b := Inorder(t.left), Inorder(t.right);
    if node.key > t.node.key {
      InorderIs(Branch(t.node, t.left, Leaf), a, []);
    } else {
      InorderIs(Branch(t.node, Leaf, t.right), [], b);
    }
    InorderIs(t, a, b);
    hide Inorder;
    Shuffle(a, t.node, b);
    InsertedSides(t, node);
  }

  lemma InorderIs(t: Tree, a: seq<Node>, b: seq<Node>)
    requires t.Branch? && a == Inorder(t.left) && b == Inorder(t.right)
    ensures Inorder(t) == a + [t.node] + b
  {}

  lemma Shuffle(a: seq<Node>, x: Node, b: seq<Node>)
    ensures a + [x] + b == a + ([x] + b) && a + [x] + [] == a + [x] && [] + [x] + b == [x] + b
  {}

  lemma InsertedSides(t: Tree, node: Node)
    requires t.Branch?
    ensures Inorder(Inserted(t, node))
         == if node.key > t.node.key then Inorder(Branch(t.node, t.left, Leaf)) + [node] + Inorder(t.right)
            else Inorder(t.left) + [node] + Inorder(Branch(t.node, Leaf, t.right))
  {
    InorderIs(Inserted(t, node), Inorder(Inserted(t, node).left), Inorder(Inserted(t, node).right));
    hide Inorder;
  }

  /** A node between the nodes of smaller and of greater keys. */
  lemma Join(a: seq<Node>, x: Node, b: seq<Node>)
    requires Ordered(a + b)
    requires (forall y :: y in a ==> y.key < x.key) && (forall y :: y in b ==> x.key < y.key)
    ensures Ordered(a + [x] + b) && Entries(a + [x] + b) == Entries(a + b)[x.key := x.value]
    ensures |a + [x] + b| == |a + b| + 1 && x.key !in Entries(a + b)
    ensures (forall y :: y in a + [x] + b ==> y == x || y in a + b) && (forall y :: y in a + b ==> y in a + [x] + b)
    ensures x in a + [x] + b
  {
    var s, s' := a + b, a + [x] + b;
    forall i, j | 0 <= i < j < |s'|
      ensures s'[i].key < s'[j].key
    {
      assert i < |a| ==> s[i] == s'[i];
      assert i > |a| ==> s[i - 1] == s'[i];
      assert j < |a| ==> s[j] == s'[j];
      assert j > |a| ==> s[j - 1] == s'[j];
    }
    JoinMembers(a, x, b);
    EntriesMore(s, x, s');
  }

  lemma JoinMembers(a: seq<Node>, x: Node, b: seq<Node>)
    ensures (forall y :: y in a + [x] + b ==> y == x || y in a + b) && (forall y :: y in a + b ==> y in a + [x] + b)
    ensures x in a + [x] + b
  {
    assert x in [x];
  }

  lemma EntriesMore(s: seq<Node>, x: Node, s': seq<Node>)
    requires Ordered(s) && Ordered(s') && (forall y :: y in s' ==> y == x || y in s) && (forall y :: y in s ==> y in s') && x in s' && forall y :: y in s ==> y.key != x.key
    ensures Entries(s') == Entries(s)[x.key := x.value] && x.key !in Entries(s) && Entries(s) == Entries(s') - {x.key}
  {
    hide *;
    var m, m' := Entries(s), Entries(s');
    forall key | key in m'
      ensures if key == x.key then m'[key] == x.value else key in m && m[key] == m'[key]
    {
      EntryOf(s', key);
      EntryOf(s, key);
      var y :| y in s' && y.key == key;
    }
    forall key | key in m
      ensures key in m' && key != x.key
    {
      EntryOf(s', key);
      EntryOf(s, key);
    }
    EntryOf(s', x.key);
  }

  lemma TakeOut(a: seq<Node>, x: Node, b: seq<Node>)
    requires Ordered(a + [x] + b)
    ensures Ordered(a + b) && Entries(a + b) == Entries(a + [x] + b) - {x.key} && |a + b| == |a + [x] + b| - 1
    ensures (forall y :: y in a + [x] + b ==> y == x || y in a + b) && (forall y :: y in a + b ==> y in a + [x] + b)
  {
    var s, s' := a + b, a + [x] + b;
    Apart(a, [x], b);
    assert x in [x];
    forall i, j | 0 <= i < j < |s|
      ensures s[i].key < s[j].key
    {
      assert s[i] == s'[if i < |a| then i else i + 1];
      assert s[j] == s'[if j < |a| then j else j + 1];
    }
    JoinMembers(a, x, b);
    EntriesMore(s, x, s');
  }

  lemma OneNode(x: Node)
    ensures Inorder(Branch(x, Leaf, Leaf)) == [x] && Ordered([x]) && Ordered([])
    ensures Entries([x]) == Entries([])[x.key := x.value]
    ensures Entries([]) == map[]
  {
    EntriesMore([], x, [x]);
  }

  /** The pointers as they are. */
  ghost function Snapshot(s: seq<Node>): Links
    reads s
  {
    Links(map x | x in s :: x.left, map x | x in s :: x.right)
  }

  lemma SnapshotHolds(s: seq<Node>)
    ensures Holds(Snapshot(s), s)
  {}

  /** Two accounts of the same pointers agree. */
  lemma SameNow(k: Links, k': Links, s: seq<Node>, s': seq<Node>)
    requires Holds(k, s) && Holds(k', s') && forall x :: x in s ==> x in s'
    ensures forall x :: x in s ==> Same(k, k', x)
  {}

  /** A tree goes to the right of a root that has nothing there. */
  method Attach(root: Node, right: Node?, ghost t: Tree, ghost k: Links, ghost u: Tree, ghost m: Links)
    returns (ghost k': Links)
    requires t.Branch? && root == t.node && t.right.Leaf? && right == Root(u)
    requires Shape(t, k) && Holds(k, Inorder(t)) && Shape(u, m) && Holds(m, Inorder(u)) && Ordered(Inorder(t) + Inorder(u))
    modifies root
    ensures Inorder(Branch(root, t.left, u)) == Inorder(t) + Inorder(u)
    ensures Shape(Branch(root, t.left, u), k') && Holds(k', Inorder(Branch(root, t.left, u)))
  {
    hide *;
    ghost var a, b, t' := Inorder(t.left), Inorder(u), Branch(root, t.left, u);
    AttachOrder(t, u);
    BranchParts(t, k);
    HoldsParts(k, Inorder(t));
    HoldsParts(m, b);
    HoldsIntro(k, a);
    root.right := right;
    HoldsIntro(k, a);
    HoldsIntro(m, b);
    ghost var s := a + [root] + b;
    k' := Snapshot(s);
    SnapshotHolds(s);
    HoldsParts(k', s);
    SameNow(k, k', a, s);
    SameNow(m, k', b, s);
    ShapeKept(t.left, k, k');
    ShapeKept(u, m, k');
    KnowsIntro(k', root);
    BranchIntro(t', k');
  }

  lemma KnowsIntro(k: Links, x: Node)
    requires x in k.left && x in k.right
    ensures Knows(k, x)
  {}

  lemma AttachOrder(t: Tree, u: Tree)
    requires t.Branch? && t.right.Leaf? && Ordered(Inorder(t) + Inorder(u))
    ensures Inorder(Branch(t.node, t.left, u)) == Inorder(t) + Inorder(u)
    ensures Inorder(Branch(t.node, t.left, u)) == Inorder(t.left) + [t.node] + Inorder(u)
    ensures Ordered(Inorder(t)) && t.node !in Inorder(t.left) && t.node !in Inorder(u)
    ensures t.node in Inorder(t.left) + [t.node] + Inorder(u)
    ensures forall x :: x in Inorder(t.left) ==> x in Inorder(t.left) + [t.node] + Inorder(u)
    ensures forall x :: x in Inorder(u) ==> x in Inorder(t.left) + [t.node] + Inorder(u)
  {
    assert Inorder(t) == Inorder(t.left) + [t.node];
    assert t.node in [t.node];
    Apart(Inorder(t.left), [t.node], Inorder(u));
    Apart(Inorder(t), Inorder(u), []);
    assert Inorder(t) + Inorder(u) + [] == Inorder(t) + Inorder(u);
  }

  lemma RightNode(t: Tree)
    requires t.Branch? && t.right.Branch?
    ensures t.right.node in Inorder(t.right) && t.right.node in Inorder(t)
  {
    assert t.right.node in [t.right.node];
  }

  /** A splay to a key greater than all leaves nothing right of the root. */
  lemma NoneRight(t: Tree, key: real)
    requires t.Branch? && Near(t, key) && (forall x :: x in Inorder(t) ==> x.key < key) && t.node in Inorder(t)
    ensures t.right.Leaf?
  {
    if t.right.Branch? {
      RightNode(t);
    }
  }

  lemma Sides(t: Tree, s: seq<Node>, a: seq<Node>, b: seq<Node>)
    requires t.Branch? && s == Inorder(t) && a == Inorder(t.left) && b == Inorder(t.right) && Ordered(s)
    ensures s == a + [t.node] + b && t.node in s
    ensures forall x :: x in a ==> x in s && x.key < t.node.key
    ensures forall x :: x in b ==> x in s && x.key > t.node.key
  {
    Apart(a, [t.node], b);
    assert t.node in [t.node];
  }

  /** What `remove` gives back, or its exception. */
  datatype Outcome = Removed(node: Node) | KeyNotFound

  class SplayTree {
    var root: Node?
    ghost var tree: Tree
    ghost var links: Links

    constructor ()
      ensures Valid() && Nodes() == []
    {
      root, tree, links := null, Leaf, Links(map[], map[]);
    }

    /** The nodes in the order of their keys. */
    ghost function Nodes(): seq<Node>
      reads this`tree
    {
      Inorder(tree)
    }

    ghost predicate Valid()
      reads this, Nodes()
    {
      root == Root(tree) && Holds(links, Nodes()) && Shape(tree, links) && Ordered(Nodes())
    }

    predicate IsEmpty()
      reads this
    {
      root == null
    }

    lemma ValidParts()
      requires Valid()
      ensures root == Root(tree) && Holds(links, Nodes()) && Shape(tree, links) && Ordered(Nodes()) && Nodes() == Inorder(tree)
      ensures IsEmpty() <==> root == null
      ensures root == null <==> tree.Leaf?
      ensures tree.Branch? ==> root == tree.node
      ensures forall x :: x in Nodes() ==> x in links.left && x in links.right && links.left[x] == x.left && links.right[x] == x.right
    {}

    lemma ValidIntro()
      requires root == Root(tree) && Holds(links, Inorder(tree)) && Shape(tree, links) && Ordered(Inorder(tree))
      ensures Valid() && Nodes() == Inorder(tree)
    {}

    /** Moves the node with the key, or the last one on the way to it, to the root. */
    method Splay(key: real) returns (ghost turns: nat)
      requires Valid()
      modifies this, Nodes()
      ensures Valid() && Nodes() == old(Nodes()) && tree.Branch? == old(tree.Branch?)
      ensures tree.Branch? ==> Near(tree, key)
      ensures old(tree.Branch?) ==> tree == Splayed(old(tree), key) && turns == Turns(old(tree), key)
      ensures old(tree.Leaf?) ==> turns == 0 && tree == old(tree)
    {
      hide *;
      ValidParts();
      if IsEmpty() {
        turns := 0;
        return;
      }
      ghost var t, k;
      root, t, k, turns := SplayNodes(root, tree, links, key);
      tree, links := t, k;
      RootIs(tree);
      ValidIntro();
    }

    /** Puts a value under a key that has none; its node becomes the root. */
    method Insert(key: real, value: Payload) returns (ghost turns: nat)
      requires Valid()
      modifies this, Nodes()
      ensures Valid() && root != null && root.key == key
      ensures Ordered(old(Nodes())) && Ordered(Nodes())
      ensures key in Entries(old(Nodes())) ==> Nodes() == old(Nodes())
      ensures key !in Entries(old(Nodes())) ==>
        Entries(Nodes()) == Entries(old(Nodes()))[key := value] && |Nodes()| == |old(Nodes())| + 1
      ensures forall x :: x in Nodes() ==> x in old(Nodes()) || fresh(x)
      ensures Leads(old(tree), Put(key, value), tree) && turns == Spent(old(tree), Put(key, value))
      ensures Pays(old(tree), tree, turns, InsertFee(Size(old(tree)) + 1)) && Size(tree) <= Size(old(tree)) + 1
    {
      hide *;
      ValidParts();
      ghost var t0 := tree;
      if IsEmpty() {
        turns := 0;
        var node := new Node(key, value);
        root := node;
        tree, links := Branch(node, Leaf, Leaf), Links(map[node := null], map[node := null]);
        OneNode(node);
        EmptyTree();
        OneShape(node, links);
        HoldsIntro(links, [node]);
        ValidIntro();
        FirstPays(node);
        Nowhere(Put(key, value));
        return;
      }
      turns := Splay(key);
      ValidParts();
      NearFinds(tree, key);
      InsertPays(t0, key);
      if root.key == key {
        OnlySplayed(t0, Put(key, value));
        return;
      }
      ghost var t, k, s := tree, links, Inorder(tree);
      HoldsParts(k, s);
      var node := new Node(key, value);
      HoldsIntro(k, s);
      InsertShape(t, k, node);
      InsertOrder(t, node, Inorder(t), Inorder(Inserted(t, node)));
      PutAbove(root, node, t, k);
      root := node;
      tree, links := Inserted(t, node), InsertedLinks(t, k, node);
      InsertedPays(t0, key, node);
      NodeAdded(t0, Put(key, value), node);
      ValidIntro();
    }

    /** Takes out the root: its subtrees are joined by splaying the left one to the root's key. */
    method RemoveRoot() returns (ghost turns: nat)
      requires Valid() && root != null
      modifies this, Nodes()
      ensures Valid() && Ordered(old(Nodes())) && Ordered(Nodes())
      ensures Entries(Nodes()) == Entries(old(Nodes())) - {old(root.key)} && |Nodes()| == |old(Nodes())| - 1
      ensures forall x :: x in Nodes() ==> x in old(Nodes())
      ensures old(tree).Branch? && tree == Joined(old(tree)) && turns == JoinTurns(old(tree))
      ensures Pays(old(tree), tree, turns, LookFee(Size(old(tree)))) && Size(tree) <= Size(old(tree))
    {
      hide *;
      ValidParts();
      ghost var t, k, s, a, b := tree, links, Nodes(), Inorder(tree.left), Inorder(tree.right);
      Sides(t, s, a, b);
      BranchParts(t, k);
      ShapeHolds(t, k);
      TakeOut(a, t.node, b);
      JoinedIs(t);
      if root.left == null {
        root, tree, turns := root.right, t.right, 0;
        RightPays(t);
        LeafOrder(t.left);
        ValidIntro();
        NothingLeft(b);
      } else {
        var key, right := root.key, root.right;
        root, tree := root.left, t.left;
        ValidIntro();
        assert Nodes() == a && forall q :: 0 <= q < |a| ==> a[q] in s;
        OrderedJoin(a, t.node, b);
        turns := JoinRight(key, right, t.right, k, a, b);
        JoinPays(t, key);
      }
    }

    /** Splays to a key greater than all, and puts `right` on the empty side of the root. */
    method JoinRight(key: real, right: Node?, ghost u: Tree, ghost m: Links, ghost a: seq<Node>, ghost b: seq<Node>)
      returns (ghost turns: nat)
      requires Valid() && a == Nodes() && tree.Branch? && (forall x :: x in a ==> x.key < key)
      requires right == Root(u) && b == Inorder(u) && Shape(u, m) && Holds(m, b) && Ordered(a + b)
      modifies this, a
      ensures Valid() && Nodes() == a + b && turns == Turns(old(tree), key)
      ensures var l := Splayed(old(tree), key); l.right.Leaf? && tree == Branch(l.node, l.left, u)
    {
      hide *;
      HoldsParts(m, b);
      AcrossApart(a, b);
      turns := Splay(key);
      HoldsIntro(m, b);
      ValidParts();
      Sides(tree, Nodes(), Inorder(tree.left), Inorder(tree.right));
      NoneRight(tree, key);
      ghost var t := tree;
      ghost var k := Attach(root, right, t, links, u, m);
      tree, links := Branch(root, t.left, u), k;
      RootIs(tree);
      ValidIntro();
    }

    /** Takes out the node with the key; without one, says so and leaves the nodes alone. */
    method Remove(key: real) returns (r: Outcome, ghost turns: nat)
      requires Valid()
      modifies this, Nodes()
      ensures Valid() && Ordered(old(Nodes())) && Ordered(Nodes())
      ensures key in Entries(old(Nodes())) ==>
        && r.Removed? && r.node.key == key && r.node.value == Entries(old(Nodes()))[key]
        && Entries(Nodes()) == Entries(old(Nodes())) - {key} && |Nodes()| == |old(Nodes())| - 1
      ensures key !in Entries(old(Nodes())) ==> r == KeyNotFound && Nodes() == old(Nodes())
      ensures forall x :: x in Nodes() ==> x in old(Nodes())
      ensures Leads(old(tree), Take(key), tree) && turns == Spent(old(tree), Take(key))
      ensures Pays(old(tree), tree, turns, RemoveFee(Size(old(tree)) + 1)) && Size(tree) <= Size(old(tree))
    {
      hide *;
      ValidParts();
      ghost var t0 := tree;
      if IsEmpty() {
        LeafOrder(tree);
        NothingPays(tree);
        Nowhere(Take(key));
        return KeyNotFound, 0;
      }
      turns := Splay(key);
      ValidParts();
      NearFinds(tree, key);
      RemovePays(t0, key);
      if root.key != key {
        OnlySplayed(t0, Take(key));
        r := KeyNotFound;
        return;
      }
      var removed := root;
      ghost var more := RemoveRoot();
      RemovedPays(t0, key, tree, more);
      RootGone(t0, Take(key), more);
      turns := turns + more;
      r := Removed(removed);
    }

    /** The node with the key, which is the root then, or null. */
    method Find(key: real) returns (r: Node?, ghost turns: nat)
      requires Valid()
      modifies this, Nodes()
      ensures Valid() && Nodes() == old(Nodes()) && Ordered(Nodes())
      ensures r != null <==> key in Entries(Nodes())
      ensures r != null ==> r in Nodes() && r.key == key && r.value == Entries(Nodes())[key]
      ensures Leads(old(tree), LookUp(key), tree) && turns == Spent(old(tree), LookUp(key))
      ensures Pays(old(tree), tree, turns, LookFee(Size(old(tree)) + 1)) && Size(tree) == Size(old(tree))
    {
      hide *;
      ValidParts();
      if IsEmpty() {
        LeafOrder(tree);
        NothingPays(tree);
        Nowhere(LookUp(key));
        return null, 0;
      }
      ghost var t0 := tree;
      turns := Splay(key);
      FindPays(t0, key);
      OnlySplayed(t0, LookUp(key));
      ValidParts();
      NearFinds(tree, key);
      r := if root.key == key then root else null;
    }

    /** The node with the greatest key, of the whole tree or of the subtree `sub` below `start`. */
    method FindMax(start: Node?, ghost sub: Tree) returns (r: Node?)
      requires Valid()
      requires start != null ==>
        sub.Branch? && start == sub.node && Shape(sub, links) && Holds(links, Inorder(sub)) && Ordered(Inorder(sub))
      ensures r == null <==> root == null
      ensures r != null ==>
        var s := if start == null then Nodes() else Inorder(sub);
        r in s && forall x :: x in s ==> x.key <= r.key
    {
      hide *;
      ValidParts();
      if IsEmpty() {
        return null;
      }
      ghost var t := if start == null then tree else sub;
      ghost var s := Inorder(t);
      var current: Node := if start != null then start else root;
      ghost var u := t;
      WholeMax(t, s);
      while current.right != null
        invariant u.Branch? && current == u.node && Shape(u, links) && Holds(links, Inorder(u)) && Ordered(Inorder(u))
        invariant MaxBelow(u, s)
        decreases Size(u)
      {
        ShapeHolds(u, links);
        MaxRight(u, links, s);
        current := current.right;
        u := u.right;
      }
      ShapeHolds(u, links);
      MaxRoot(u, s);
      r := current;
    }

    /** The node with the greatest key below `key`. */
    method FindGreatestLessThan(key: real) returns (r: Node?)
      requires Valid()
      modifies this, Nodes()
      ensures Valid() && Nodes() == old(Nodes())
      ensures r == null ==> forall x :: x in Nodes() ==> x.key >= key
      ensures r != null ==> r in Nodes() && r.key < key && forall x :: x in Nodes() && x.key < key ==> x.key <= r.key
    {
      hide *;
      ValidParts();
      if IsEmpty() {
        LeafOrder(tree);
        return null;
      }
      ghost var turns := Splay(key);
      ValidParts();
      ShapeHolds(tree, links);
      BranchParts(tree, links);
      ghost var s, a, b := Nodes(), Inorder(tree.left), Inorder(tree.right);
      NearSides(tree, key, s, a, b);
      if root.key < key {
        r := root;
      } else if root.left != null {
        r := FindMax(root.left, tree.left);
      } else {
        LeafOrder(tree.left);
        r := null;
      }
    }

    /** The keys, in order. */
    method ExportKeys() returns (r: seq<real>)
      requires Valid()
      ensures r == Keys(Nodes()) && Ordered(Nodes())
      ensures forall i, j :: 0 <= i < j < |r| ==> r[i] < r[j]
      ensures forall key :: key in r <==> key in Entries(Nodes())
    {
      hide *;
      ValidParts();
      r := [];
      if !IsEmpty() {
        AmongSelf(tree, Nodes());
        r := Traverse(root, tree, links, Nodes(), r);
        NoneBefore(Keys(Inorder(tree)));
      } else {
        LeafOrder(tree);
        KeysOfNone();
      }
      KeysOrdered(Nodes());
    }
  }

  /** Adds the keys of the subtree below `start` to `result`. */
  method Traverse(start: Node, ghost t: Tree, ghost k: Links, ghost s: seq<Node>, result: seq<real>) returns (r: seq<real>)
    requires t.Branch? && start == t.node && Shape(t, k) && Holds(k, s) && Among(t, s) && Ordered(Inorder(t))
    ensures r == result + Keys(Inorder(t))
    decreases Size(t)
  {
    hide *;
    var current: Node? := start;
    ghost var u := t;
    r := result;
    RootIs(t);
    while current != null
      invariant current == Root(u) && Shape(u, k) && Holds(k, s) && Among(u, s) && Ordered(Inorder(u)) && Size(u) <= Size(t)
      invariant r + Keys(Inorder(u)) == result + Keys(Inorder(t))
      decreases Size(u)
    {
      RootBranch(u);
      BranchParts(u, k);
      SubtreesAmong(u, k, s);
      ghost var before := r;
      var left := current.left;
      if left != null {
        RootBranch(u.left);
        r := Traverse(left, u.left, k, s, r);
      } else {
        LeafKeys(u.left, r);
      }
      r := r + [current.key];
      KeysOfBranch(u, before);
      SubtreesAmong(u, k, s);
      current := current.right;
      u := u.right;
    }
    LeafKeys(u, r);
  }

  /** All nodes of the tree are in `s`. */
  ghost predicate Among(t: Tree, s: seq<Node>) {
    forall x :: x in Inorder(t) ==> x in s
  }

  lemma SubtreesAmong(t: Tree, k: Links, s: seq<Node>)
    requires t.Branch? && Shape(t, k) && Ordered(Inorder(t)) && Holds(k, s) && Among(t, s)
    ensures Among(t.left, s) && Among(t.right, s) && t.node.left == Root(t.left) && t.node.right == Root(t.right)
  {
    BranchParts(t, k);
    HoldsParts(k, s);
  }

  ghost function Keys(s: seq<Node>): seq<real> {
    seq(|s|, i requires 0 <= i < |s| => s[i].key)
  }

  lemma AmongSelf(t: Tree, s: seq<Node>)
    requires s == Inorder(t)
    ensures Among(t, s)
  {}

  lemma KeysOfNone()
    ensures Keys([]) == []
  {}

  lemma NoneBefore(r: seq<real>)
    ensures [] + r == r
  {}

  lemma KeysOfBranch(t: Tree, before: seq<real>)
    requires t.Branch?
    ensures before + Keys(Inorder(t.left)) + [t.node.key] + Keys(Inorder(t.right)) == before + Keys(Inorder(t))
  {
    hide *;
    InorderIs(t, Inorder(t.left), Inorder(t.right));
    KeysJoin(Inorder(t.left), t.node, Inorder(t.right));
    FourParts(before, Keys(Inorder(t.left)), [t.node.key], Keys(Inorder(t.right)));
  }

  lemma KeysJoin(a: seq<Node>, x: Node, b: seq<Node>)
    ensures Keys(a + [x] + b) == Keys(a) + [x.key] + Keys(b)
  {}

  lemma FourParts(a: seq<real>, b: seq<real>, c: seq<real>, d: seq<real>)
    ensures a + b + c + d == a + (b + c + d)
  {}

  lemma LeafKeys(t: Tree, r: seq<real>)
    requires Root(t) == null
    ensures r + Keys(Inorder(t)) == r && t.Leaf?
  {}

  lemma RootBranch(t: Tree)
    requires Root(t) != null
    ensures t.Branch? && Root(t) == t.node && Size(t) == Size(t.left) + 1 + Size(t.right)
  {}

  lemma KeysOrdered(s: seq<Node>)
    requires Ordered(s)
    ensures forall i, j :: 0 <= i < j < |Keys(s)| ==> Keys(s)[i] < Keys(s)[j]
    ensures forall key :: key in Keys(s) <==> key in Entries(s)
  {
    forall key | key in Keys(s)
      ensures key in Entries(s)
    {
      var i :| 0 <= i < |Keys(s)| && Keys(s)[i] == key;
      assert s[i] in s;
    }
    forall key | key in Entries(s)
      ensures key in Keys(s)
    {
      var i :| 0 <= i < |s| && s[i].key == key;
      assert Keys(s)[i] == key;
    }
  }

  /** The greatest of `s` is the greatest of this subtree. */
  ghost predicate MaxBelow(u: Tree, s: seq<Node>) {
    forall r :: r in Inorder(u) && (forall x :: x in Inorder(u) ==> x.key <= r.key) ==> r in s && forall x :: x in s ==> x.key <= r.key
  }

  lemma WholeMax(t: Tree, s: seq<Node>)
    requires s == Inorder(t)
    ensures MaxBelow(t, s)
  {}

  lemma MaxRight(u: Tree, k: Links, s: seq<Node>)
    requires u.Branch? && Shape(u, k) && Ordered(Inorder(u)) && u.right.Branch? && MaxBelow(u, s)
    ensures MaxBelow(u.right, s) && Ordered(Inorder(u.right)) && Shape(u.right, k) && Root(u.right) == u.right.node
    ensures Size(u.right) < Size(u)
  {
    BranchParts(u, k);
  }

  lemma MaxRoot(u: Tree, s: seq<Node>)
    requires u.Branch? && u.right.Leaf? && Ordered(Inorder(u)) && MaxBelow(u, s)
    ensures u.node in s && forall x :: x in s ==> x.key <= u.node.key
  {
    Sides(u, Inorder(u), Inorder(u.left), Inorder(u.right));
    hide Ordered;
    hide Inorder;
    LeafOrder(u.right);
  }

  /** After a splay, the nodes of smaller keys are the root, if its key is smaller, and those to its left. */
  lemma NearSides(t: Tree, key: real, s: seq<Node>, a: seq<Node>, b: seq<Node>)
    requires t.Branch? && Near(t, key) && s == Inorder(t) && a == Inorder(t.left) && b == Inorder(t.right) && Ordered(s)
    ensures t.node in s && forall x :: x in a ==> x in s && x.key < key
    ensures t.node.key < key ==> forall x :: x in s && x.key < key ==> x.key <= t.node.key
    ensures t.node.key >= key ==> forall x :: x in s && x.key < key ==> x in a
  {
    Sides(t, s, a, b);
    forall x | x in s
      ensures x in a || x == t.node || x in b
    {
    }
  }

  lemma ShapeHolds(t: Tree, k: Links)
    requires t.Branch? && Shape(t, k) && Ordered(Inorder(t)) && Holds(k, Inorder(t))
    ensures Holds(k, Inorder(t.left)) && Holds(k, Inorder(t.right))
    ensures t.node.left == Root(t.left) && t.node.right == Root(t.right)
    ensures Root(t.left) == null <==> t.left.Leaf?
    ensures Root(t.right) == null <==> t.right.Leaf?
    ensures t.left.Branch? ==> t.node.left == t.left.node
    ensures t.right.Branch? ==> t.node.right == t.right.node
  {
    hide *;
    BranchParts(t, k);
    HoldsParts(k, Inorder(t));
    HoldsIntro(k, Inorder(t.left));
    HoldsIntro(k, Inorder(t.right));
    RootCases(t.left);
    RootCases(t.right);
  }

  lemma RootCases(t: Tree)
    ensures Root(t) == null <==> t.Leaf?
    ensures t.Branch? ==> Root(t) == t.node
  {}

  lemma LeafOrder(t: Tree)
    requires t.Leaf?
    ensures Inorder(t) == [] && Root(t) == null && Ordered([]) && Entries([]) == map[]
  {}

  lemma OrderedJoin(a: seq<Node>, x: Node, b: seq<Node>)
    requires Ordered(a + [x] + b)
    ensures Ordered(a + b)
  {
    TakeOut(a, x, b);
  }

  lemma AcrossApart(a: seq<Node>, b: seq<Node>)
    requires Ordered(a + b)
    ensures forall x :: x in b ==> x !in a
  {
    assert a + b + [] == a + b;
    Apart(a, b, []);
  }

  lemma NothingLeft(b: seq<Node>)
    ensures [] + b == b
  {}

  lemma EmptyTree()
    ensures Inorder(Leaf) == []
  {}

  lemma OneShape(x: Node, k: Links)
    requires k == Links(map[x := null], map[x := null])
    ensures Shape(Branch(x, Leaf, Leaf), k) && Root(Branch(x, Leaf, Leaf)) == x
  {}

  lemma InsertIs(t: Tree, k: Links, node: Node)
    requires t.Branch? && Shape(t, k)
    ensures InsertedLinks(t, k, node).left
         == if node.key > t.node.key then k.left[node := t.node] else k.left[node := k.left[t.node]][t.node := null]
    ensures InsertedLinks(t, k, node).right
         == if node.key > t.node.key then k.right[node := k.right[t.node]][t.node := null] else k.right[node := t.node]
    ensures t.node in k.left && t.node in k.right
  {}

  lemma RootIs(t: Tree)
    requires t.Branch?
    ensures Root(t) == t.node
  {}

  /** Passing a node makes the middle tree smaller, turning keeps its size. */
  lemma Smaller(v: View)
    requires v.t.Branch?
    ensures Size(LinkedRight(v).t) < Size(v.t) && Size(LinkedLeft(v).t) < Size(v.t)
    ensures LinkedRight(v).t == v.t.left && LinkedLeft(v).t == v.t.right
    ensures LinkedRight(v).dummy == v.dummy && LinkedLeft(v).dummy == v.dummy
    ensures v.t.left.Branch? ==> RotatedRight(v.t).Branch? && Size(RotatedRight(v.t)) == Size(v.t)
    ensures v.t.right.Branch? ==> RotatedLeft(v.t).Branch? && Size(RotatedLeft(v.t)) == Size(v.t)
  {}

  // ---- any run of operations

  /** Insertions, removals and look-ups in any order. Each does to the tree and to its entries what its name says, the
      turns are those of all its splays, and they are logarithmic in the number of nodes for each operation, once the
      first tree's weight is paid for. */
  method Perform(t: SplayTree, ops: seq<Operation>) returns (ghost turns: nat, ghost trees: seq<Tree>)
    requires t.Valid()
    modifies t, t.Nodes()
    ensures t.Valid() && Ordered(old(t.Nodes())) && Ordered(t.Nodes())
    ensures Entries(t.Nodes()) == AllDone(Entries(old(t.Nodes())), ops)
    ensures |trees| == |ops| + 1 && trees[0] == old(t.tree) && trees[|ops|] == t.tree
    ensures forall i :: 0 <= i < |ops| ==> Leads(trees[i], ops[i], trees[i + 1])
    ensures turns == AllSpent(trees, ops)
    ensures var n := Size(old(t.tree));
      Pow2(turns) <= Power(RemoveFee(n + |ops| + 1), |ops|) * Power(n, n)
  {
    hide *;
    t.ValidParts();
    ghost var t0, n, m := t.tree, Size(t.tree), Entries(t.Nodes());
    ghost var fee := RemoveFee(n + |ops| + 1);
    turns, trees := 0, [t0];
    NoneDone(t0, fee);
    RunBegins(m, trees, ops);
    for i := 0 to |ops|
      invariant t.Valid() && Size(t.tree) <= n + i && Pays(t0, t.tree, turns, Power(fee, i))
      invariant forall x :: x in t.Nodes() ==> x in old(t.Nodes()) || fresh(x)
      invariant Ordered(t.Nodes()) && Entries(t.Nodes()) == AllDone(m, ops[..i])
      invariant |trees| == i + 1 && trees[0] == t0 && trees[i] == t.tree && turns == AllSpent(trees, ops[..i])
      invariant forall k, l :: 0 <= k < i && l == k + 1 ==> Leads(trees[k], ops[k], trees[l])
    {
      ghost var t1, s1 := t.tree, t.Nodes();
      assert forall q :: 0 <= q < |s1| ==> s1[q] in s1;
      assert forall q :: 0 <= q < |s1| ==> s1[q] in old(t.Nodes()) || fresh(s1[q]);
      ghost var more := Step(t, ops[i]);
      OneMore(t0, t1, t.tree, turns, more, Size(t1) + 1, n + |ops| + 1, i);
      RunNext(m, ops, i);
      SpentNext(trees, t.tree, ops, i);
      trees := trees + [t.tree];
      turns := turns + more;
    }
    TurnsOf(t0, t.tree, turns, Power(fee, |ops|));
  }

  method Step(t: SplayTree, op: Operation) returns (ghost turns: nat)
    requires t.Valid()
    modifies t, t.Nodes()
    ensures t.Valid() && forall x :: x in t.Nodes() ==> x in old(t.Nodes()) || fresh(x)
    ensures Ordered(old(t.Nodes())) && Ordered(t.Nodes()) && Entries(t.Nodes()) == Done(Entries(old(t.Nodes())), op)
    ensures Leads(old(t.tree), op, t.tree) && turns == Spent(old(t.tree), op)
    ensures Pays(old(t.tree), t.tree, turns, RemoveFee(Size(old(t.tree)) + 1)) && Size(t.tree) <= Size(old(t.tree)) + 1
  {
    hide *;
    ghost var t0 := t.tree;
    t.ValidParts();
    ghost var m := Entries(t.Nodes());
    match op
    case Put(key, value) =>
      turns := t.Insert(key, value);
      InsertLess(t0, t.tree, turns, Size(t0) + 1);
      DoneIs(m, Entries(t.Nodes()), op);
    case Take(key) =>
      var r;
      r, turns := t.Remove(key);
      DoneIs(m, Entries(t.Nodes()), op);
    case LookUp(key) =>
      var r;
      r, turns := t.Find(key);
      LookLess(t0, t.tree, turns, Size(t0) + 1);
      DoneIs(m, Entries(t.Nodes()), op);
  }

  // ---- what the benchmark does with the tree

  /** Puts a payload under the first of the generated keys that is not in the tree. */
  method InsertNewNode(t: SplayTree, generated: seq<real>, payload: Payload) returns (key: real)
    requires t.Valid() && exists i :: 0 <= i < |generated| && FreshKey(t.Nodes(), generated[i])
    modifies t, t.Nodes()
    ensures t.Valid() && Ordered(old(t.Nodes())) && Ordered(t.Nodes())
    ensures key in generated && key !in Entries(old(t.Nodes()))
    ensures exists i :: 0 <= i < |generated| && key == generated[i] && AllIn(generated[..i], old(t.Nodes()))
    ensures Entries(t.Nodes()) == Entries(old(t.Nodes()))[key := payload] && |t.Nodes()| == |old(t.Nodes())| + 1
    ensures forall x :: x in t.Nodes() ==> x in old(t.Nodes()) || fresh(x)
  {
    hide *;
    t.ValidParts();
    ghost var s := t.Nodes();
    ghost var w :| 0 <= w < |generated| && FreshKey(s, generated[w]);
    var i := 0;
    key := generated[i];
    NoneIn(s);
    ghost var turns;
    var found;
    found, turns := t.Find(key);
    while found != null
      invariant t.Valid() && t.Nodes() == s && 0 <= i <= w && key == generated[i]
      invariant found == null <==> key !in Entries(s)
      invariant AllIn(generated[..i], s)
      decreases w - i
    {
      FreshIs(s, generated[w]);
      OneMoreIn(generated, s, i);
      i := i + 1;
      key := generated[i];
      found, turns := t.Find(key);
    }
    turns := t.Insert(key, payload);
  }

  /** The tree has all these keys. */
  ghost predicate AllIn(keys: seq<real>, s: seq<Node>)
    requires Ordered(s)
  {
    forall key :: key in keys ==> key in Entries(s)
  }

  lemma NoneIn(s: seq<Node>)
    requires Ordered(s)
    ensures AllIn([], s)
  {}

  lemma OneMoreIn(keys: seq<real>, s: seq<Node>, i: nat)
    requires Ordered(s) && i < |keys| && AllIn(keys[..i], s) && keys[i] in Entries(s)
    ensures AllIn(keys[..i + 1], s)
  {
    assert keys[..i + 1] == keys[..i] + [keys[i]];
  }

  ghost predicate FreshKey(s: seq<Node>, key: real) {
    forall x :: x in s ==> x.key != key
  }

  lemma FreshIs(s: seq<Node>, key: real)
    requires Ordered(s)
    ensures FreshKey(s, key) <==> key !in Entries(s)
  {
    EntryOf(s, key);
  }

  /** One round of the benchmark: a new node comes in, and the one before it, if any, or else the new one
      goes; the tree keeps its size. */
  method ReplaceNode(t: SplayTree, generated: seq<real>, payload: Payload) returns (key: real, gone: real)
    requires t.Valid() && exists i :: 0 <= i < |generated| && FreshKey(t.Nodes(), generated[i])
    modifies t, t.Nodes()
    ensures t.Valid() && Ordered(old(t.Nodes())) && Ordered(t.Nodes()) && |t.Nodes()| == |old(t.Nodes())|
    ensures key in generated && key !in Entries(old(t.Nodes()))
    ensures exists i :: 0 <= i < |generated| && key == generated[i] && AllIn(generated[..i], old(t.Nodes()))
    ensures Entries(t.Nodes()) == Entries(old(t.Nodes()))[key := payload] - {gone}
    ensures gone == key || (gone in Entries(old(t.Nodes())) && gone < key)
    ensures forall x :: x in old(t.Nodes()) && x.key < key ==> x.key <= gone < key
  {
    hide *;
    ghost var s := t.Nodes();
    key := InsertNewNode(t, generated, payload);
    ghost var s1 := t.Nodes();
    assert forall i :: 0 <= i < |s1| ==> s1[i] in s1;
    assert forall i :: 0 <= i < |s1| ==> s1[i] in s || fresh(s1[i]);
    gone := RemoveBefore(t, key, s1);
    NewEntries(s, s1, key, payload);
  }

  /** Takes out the node before the key or, if there is none, the key's own. */
  method RemoveBefore(t: SplayTree, key: real, ghost s1: seq<Node>) returns (gone: real)
    requires t.Valid() && s1 == t.Nodes() && Ordered(s1) && key in Entries(s1)
    modifies t, s1
    ensures t.Valid() && Ordered(t.Nodes()) && |t.Nodes()| == |s1| - 1 && Entries(t.Nodes()) == Entries(s1) - {gone}
    ensures gone == key || exists x :: x in s1 && x.key == gone < key
    ensures forall x :: x in s1 && x.key < key ==> x.key <= gone < key
  {
    hide *;
    var greatest := t.FindGreatestLessThan(key);
    var r;
    ghost var turns;
    if greatest == null {
      gone := key;
      r, turns := t.Remove(key);
    } else {
      gone := greatest.key;
      EntryOf(s1, gone);
      r, turns := t.Remove(greatest.key);
    }
  }

  lemma NewEntries(s: seq<Node>, s1: seq<Node>, key: real, payload: Payload)
    requires Ordered(s) && Ordered(s1) && Entries(s1) == Entries(s)[key := payload]
    ensures forall x :: x in s ==> exists y :: y in s1 && y.key == x.key
    ensures forall y :: y in s1 && y.key != key ==> y.key in Entries(s)
  {
    forall x | x in s
      ensures exists y :: y in s1 && y.key == x.key
    {
      EntryOf(s, x.key);
      EntryOf(s1, x.key);
    }
    forall y | y in s1 && y.key != key
      ensures y.key in Entries(s)
    {
      EntryOf(s1, y.key);
    }
  }
}
