/** The second chart holds exactly the items that some parse of the whole input uses. */
module EarleyUses {
  import opened EarleyGrammar
  import opened EarleyTrees
  import opened EarleyParser
  import opened EarleyParses
  import opened EarleyEnumeration
  import EarleyFilter

  // ---- what a parse uses

  /** `u` stands in `t`, beginning at token `a`, when `t` begins at token `i`. */
  ghost predicate Occurs(t: Tree, i: int, u: Tree, a: int)
    decreases t
  {
    || (t == u && i == a)
    || (t.Node? && exists q :: 0 <= q < |t.kids| && Occurs(t.kids[q], KidStart(t, i, q), u, a))
  }

  /** The token at which a subtree begins. */
  ghost function KidStart(t: Tree, i: int, q: nat): int
    requires t.Node? && q < |t.kids|
  {
    i + LeavesAll(t.kids[..q])
  }

  lemma {:induction false} OccursInside(t: Tree, i: int, w: Tree, a: int, u: Tree, b: int)
    requires Occurs(t, i, w, a) && Occurs(w, a, u, b)
    ensures Occurs(t, i, u, b)
    decreases t
  {
    hide KidStart;
    if !(t == w && i == a) {
      var q :| 0 <= q < |t.kids| && Occurs(t.kids[q], KidStart(t, i, q), w, a);
      OccursInside(t.kids[q], KidStart(t, i, q), w, a, u, b);
    }
  }

  lemma KidOccurs(t: Tree, i: int, q: nat)
    requires t.Node? && q < |t.kids|
    ensures Occurs(t, i, t.kids[q], KidStart(t, i, q))
  {
    hide KidStart;
    assert Occurs(t.kids[q], KidStart(t, i, q), t.kids[q], KidStart(t, i, q));
  }

  ghost predicate WholeParse(x: Context, t: Tree)
    requires |x.p.nts| > 0
  {
    IsParse(x.g, x.toks, t, x.p.nts[0], 0, |x.toks|)
  }

  ghost predicate TreeAt(x: Context, t: Tree, c: int, i: int, j: int) {
    ItemTree(x.g, x.toks, x.p, x.dots, t, c, i, j)
  }

  /** Where the rule of a configuration ends; a token's configuration is its own. */
  ghost function RuleEnd(dots: seq<Dot>, c: int): int
    requires 0 <= c < |dots|
  {
    if dots[c].Dot? then c - dots[c].pos + |dots[c].rhs| else c
  }

  /** `w` is a tree of the completed rule of `c`, and its first subtrees are what `c` has read. */
  ghost predicate TreeOfRule(x: Context, w: Tree, c: int, a: int, b: int) {
    && 0 <= c < |x.dots| && w.Node? && (exists l :: TreeAt(x, w, RuleEnd(x.dots, c), a, l))
    && exists n :: 0 <= n <= |w.kids| && TreeAt(x, Node(w.name, w.kids[..n]), c, a, b)
  }

  /** Some parse of the whole input uses the item: its rule is applied there, and has come that far. */
  ghost predicate UsedByParse(x: Context, c: int, a: int, b: int)
    requires |x.p.nts| > 0
  {
    exists t, w :: WholeParse(x, t) && Occurs(t, 0, w, a) && TreeOfRule(x, w, c, a, b)
  }

  // ---- the same, from the goal down

  ghost predicate TrueItem(x: Context, c: int, i: int, j: int) {
    ItemTrue(x.g, x.toks, x.p, x.dots, c, i, j)
  }

  /** In `n` splits from a goal item. */
  ghost predicate UsedAt(x: Context, n: nat, c: int, a: int, b: int)
    decreases n, 1
  {
    && InRange(x.p) && |x.p.nts| > 0 && TrueItem(x, c, a, b)
    && if n == 0 then c in x.p.enders[0] && a == 0 && b == |x.toks|
       else (exists e, j :: BeforeSplit(x, n, c, a, b, e, j)) || (exists d, i :: AfterSplit(x, n, c, a, b, d, i))
  }

  /** The item is what a used item of the next configuration has before its last symbol. */
  ghost predicate BeforeSplit(x: Context, n: nat, c: int, a: int, b: int, e: int, j: int)
    requires InRange(x.p) && n > 0
    decreases n, 0
  {
    UsedAt(x, n - 1, c + 1, a, j) && e in EndersAfter(x.p, c) && TrueItem(x, e, b, j) && Inner(x, c + 1)
  }

  /** The item is the last symbol of a used item. */
  ghost predicate AfterSplit(x: Context, n: nat, c: int, a: int, b: int, d: int, i: int)
    requires InRange(x.p) && n > 0
    decreases n, 0
  {
    UsedAt(x, n - 1, d, i, b) && c in EndersAfter(x.p, d - 1) && TrueItem(x, d - 1, i, a) && Inner(x, d)
  }

  /** A configuration inside a rule, or at its end. */
  ghost predicate Inner(x: Context, c: int) {
    0 <= c < |x.p.names| && x.p.names[c] == NoName
  }

  ghost predicate Used(x: Context, c: int, a: int, b: int) {
    exists n: nat :: UsedAt(x, n, c, a, b)
  }

  lemma UsedTrue(x: Context, n: nat, c: int, a: int, b: int)
    requires UsedAt(x, n, c, a, b)
    ensures InRange(x.p) && |x.p.nts| > 0 && TrueItem(x, c, a, b)
  {}

  /** The parts of a split of a used item are used. */
  lemma PartsUsed(x: Context, n: nat, d: int, i: int, k: int, j: int, e: int)
    requires UsedAt(x, n, d, i, j) && Inner(x, d) && InRange(x.p) && e in EndersAfter(x.p, d - 1)
    requires TrueItem(x, d - 1, i, k) && TrueItem(x, e, k, j)
    ensures UsedAt(x, n + 1, d - 1, i, k) && UsedAt(x, n + 1, e, k, j)
  {
    hide TrueItem;
    hide EndersAfter;
    UsedTrue(x, n, d, i, j);
    assert BeforeSplit(x, n + 1, d - 1, i, k, e, j);
    assert AfterSplit(x, n + 1, e, k, j, d, i);
  }

  // ---- from uses to occurrences

  /** `u` is what has been read of `w`. */
  ghost predicate Beginning(u: Tree, w: Tree) {
    u.Node? && w.Node? && u.name == w.name && u.kids <= w.kids
  }

  lemma TreeTrue(x: Context, t: Tree, c: int, i: int, j: int)
    requires ContextOk(x) && TreeAt(x, t, c, i, j)
    ensures TrueItem(x, c, i, j)
  {
    assert DotOk(x.g, x.p, x.dots, c);
    if x.dots[c].Dot? {
      StartOfRule(x.g, x.p, x.dots, c);
      ParsesDerive(x.g, x.toks, t.kids, x.dots[c].rhs[..x.dots[c].pos], i, j);
    }
  }

  lemma TrueHasTree(x: Context, c: int, i: int, j: int) returns (t: Tree)
    requires ContextOk(x) && TrueItem(x, c, i, j)
    ensures TreeAt(x, t, c, i, j)
  {
    t := ItemHasTree(x.g, Source(x.p, x.toks, []), x.dots, c, i, j);
  }

  /** A tree of an item and one of an ender after it make a tree of the next configuration. */
  lemma TreesJoin(x: Context, d: int, i: int, k: int, j: int, e: int, p: Tree, u: Tree)
    requires ContextOk(x) && Inner(x, d) && e in EndersAfter(x.p, d - 1) && TreeAt(x, p, d - 1, i, k) && TreeAt(x, u, e, k, j)
    ensures p.Node? && TreeAt(x, Appended(p, u), d, i, j)
  {
    var src := Source(x.p, x.toks, []);
    CompiledSizes(x.g, x.p, x.dots);
    UnnamedDot(x.g, x.p, x.dots, d);
    EnderStep(x.g, x.p, x.dots, d - 1, e);
    AppendedTree(x.g, src, x.dots, d - 1, e, i, k, j, p, u);
    hide ContextOk;
  }

  lemma TreeLeaves(x: Context, t: Tree, d: int, i: int, k: int)
    requires ContextOk(x) && Inner(x, d + 1) && TreeAt(x, t, d, i, k)
    ensures t.Node? && LeavesAll(t.kids) == k - i
  {
    CompiledSizes(x.g, x.p, x.dots);
    UnnamedDot(x.g, x.p, x.dots, d + 1);
    ParsesLeaves(x.g, x.toks, t.kids, x.dots[d].rhs[..x.dots[d].pos], i, k);
  }

  /** A tree of a used item begins a tree that stands in some parse of the whole input. */
  lemma {:induction false} UsedOccurs(x: Context, n: nat, c: int, a: int, b: int, u: Tree) returns (t: Tree, w: Tree, l: int)
    requires ContextOk(x) && UsedAt(x, n, c, a, b) && TreeAt(x, u, c, a, b)
    ensures |x.p.nts| > 0 && WholeParse(x, t) && Occurs(t, 0, w, a) && Beginning(u, w)
    ensures 0 <= c < |x.dots| && TreeAt(x, w, RuleEnd(x.dots, c), a, l)
    decreases n
  {
    hide *;
    UsedTrue(x, n, c, a, b);
    if n == 0 {
      t := RootParse(x, c, a, b, u);
      w, l := u, b;
    } else {
      var before, e, j, d, i := UsedFrom(x, n, c, a, b);
      if before {
        var v := TrueHasTree(x, e, b, j);
        StepBack(c);
        TreesJoin(x, c + 1, a, b, j, e, u, v);
        t, w, l := UsedOccurs(x, n - 1, c + 1, a, j, Appended(u, v));
        BeginningLess(u, v, w);
        SameEnd(x, c);
      } else {
        var p := TrueHasTree(x, d - 1, i, a);
        TreesJoin(x, d, i, a, b, c, p, u);
        var v, m;
        t, v, m := UsedOccurs(x, n - 1, d, i, b, Appended(p, u));
        StepOn(d);
        TreeLeaves(x, p, d - 1, i, a);
        LastOccurs(p, u, v, i, a);
        OccursInside(t, 0, v, i, u, a);
        w, l := u, b;
        BeginningSelf(x, u, c, a, b);
        EnderEnds(x, c, d - 1);
      }
    }
  }

  lemma StepBack(c: int)
    ensures (c + 1) - 1 == c
  {}

  lemma StepOn(d: int)
    ensures (d - 1) + 1 == d
  {}

  lemma UsedFrom(x: Context, n: nat, c: int, a: int, b: int) returns (before: bool, e: int, j: int, d: int, i: int)
    requires UsedAt(x, n, c, a, b) && n > 0
    ensures InRange(x.p)
    ensures before ==> UsedAt(x, n - 1, c + 1, a, j) && e in EndersAfter(x.p, c) && TrueItem(x, e, b, j) && Inner(x, c + 1)
    ensures !before ==> UsedAt(x, n - 1, d, i, b) && c in EndersAfter(x.p, d - 1) && TrueItem(x, d - 1, i, a) && Inner(x, d)
  {
    hide TrueItem;
    hide EndersAfter;
    e, j, d, i := 0, 0, 0, 0;
    if e', j' :| BeforeSplit(x, n, c, a, b, e', j') {
      before, e, j := true, e', j';
    } else {
      before := false;
      d, i :| AfterSplit(x, n, c, a, b, d, i);
    }
  }

  lemma RootParse(x: Context, c: int, a: int, b: int, u: Tree) returns (t: Tree)
    requires ContextOk(x) && UsedAt(x, 0, c, a, b) && TreeAt(x, u, c, a, b)
    ensures |x.p.nts| > 0 && t == u && WholeParse(x, t) && Occurs(t, 0, u, a) && Beginning(u, u)
    ensures 0 <= c < |x.dots| && RuleEnd(x.dots, c) == c
  {
    t := u;
    assert ListsOk(x.p, x.dots, 0);
    Complete(x, c);
    EnderTree(x.g, Source(x.p, x.toks, []), x.dots, c, a, b, u);
  }

  lemma BeginningLess(u: Tree, v: Tree, w: Tree)
    requires u.Node? && Beginning(Appended(u, v), w)
    ensures Beginning(u, w)
  {
    assert u.kids <= u.kids + [v];
  }

  lemma BeginningSelf(x: Context, u: Tree, c: int, a: int, b: int)
    requires TreeAt(x, u, c, a, b)
    ensures Beginning(u, u)
  {}

  lemma LastOccurs(p: Tree, u: Tree, w: Tree, i: int, a: int)
    requires p.Node? && Beginning(Appended(p, u), w) && LeavesAll(p.kids) == a - i
    ensures Occurs(w, i, u, a)
  {
    PrefixAt(p.kids, u, w.kids);
    hide Occurs;
    KidOccurs(w, i, |p.kids|);
  }

  lemma PrefixAt(ps: seq<Tree>, u: Tree, ws: seq<Tree>)
    requires ps + [u] <= ws
    ensures |ps| < |ws| && ws[|ps|] == u && ws[..|ps|] == ps
  {
    var us := ps + [u];
    assert ws[|ps|] == us[|ps|];
    assert ws[..|ps|] == us[..|ps|];
  }

  /** A configuration that completes a nonterminal is the end of its rule. */
  lemma Complete(x: Context, c: int)
    requires ContextOk(x) && 0 <= c < |x.dots| && x.p.steps[c] < 0
    ensures RuleEnd(x.dots, c) == c
  {
    assert DotOk(x.g, x.p, x.dots, c);
  }

  lemma EnderEnds(x: Context, c: int, prev: int)
    requires ContextOk(x) && c in EndersAfter(x.p, prev)
    ensures 0 <= c < |x.dots| == |x.p.steps| && x.p.steps[c] < 0 && RuleEnd(x.dots, c) == c
  {
    assert ListsOk(x.p, x.dots, x.p.steps[prev]);
    Complete(x, c);
  }

  lemma SameEnd(x: Context, c: int)
    requires ContextOk(x) && Inner(x, c + 1)
    ensures 0 <= c && c + 1 < |x.dots| && RuleEnd(x.dots, c) == RuleEnd(x.dots, c + 1)
  {
    CompiledSizes(x.g, x.p, x.dots);
    UnnamedDot(x.g, x.p, x.dots, c + 1);
    assert DotOk(x.g, x.p, x.dots, c);
  }

  /** What is used from the goal down is used by a parse. */
  lemma UsedIsByParse(x: Context, n: nat, c: int, a: int, b: int)
    requires ContextOk(x) && UsedAt(x, n, c, a, b)
    ensures |x.p.nts| > 0 && UsedByParse(x, c, a, b)
  {
    hide *;
    UsedTrue(x, n, c, a, b);
    var u := TrueHasTree(x, c, a, b);
    var t, w, l := UsedOccurs(x, n, c, a, b, u);
    RuleTreeIntro(x, t, w, u, c, a, b, l);
  }

  lemma RuleTreeIntro(x: Context, t: Tree, w: Tree, u: Tree, c: int, a: int, b: int, l: int)
    requires |x.p.nts| > 0 && WholeParse(x, t) && Occurs(t, 0, w, a) && Beginning(u, w) && TreeAt(x, u, c, a, b)
    requires 0 <= c < |x.dots| && TreeAt(x, w, RuleEnd(x.dots, c), a, l)
    ensures UsedByParse(x, c, a, b)
  {
    hide WholeParse;
    hide Occurs;
    hide RuleEnd;
    assert u == Node(w.name, w.kids[..|u.kids|]);
    hide TreeAt;
    assert TreeOfRule(x, w, c, a, b);
  }

  // ---- from occurrences to uses

  lemma CompleteSteps(x: Context, d: int)
    requires ContextOk(x) && 0 <= d < |x.dots|
    ensures |x.dots| == |x.p.steps| == |x.p.names| && InRange(x.p) && 0 <= RuleEnd(x.dots, d) < |x.dots|
    ensures x.p.steps[RuleEnd(x.dots, d)] < 0
  {
    CompiledSizes(x.g, x.p, x.dots);
    assert DotOk(x.g, x.p, x.dots, d);
    if x.dots[d].Dot? {
      StartOfRule(x.g, x.p, x.dots, d);
      var s := d - x.dots[d].pos;
      RuleGoesOn(x.g, x.p, x.dots, s, |x.dots[s].rhs|);
      assert DotOk(x.g, x.p, x.dots, s + |x.dots[s].rhs|);
    }
  }

  /** The last subtree of a used tree is a used tree, and so is the rest. */
  lemma LastUsed(x: Context, n: nat, d: int, i: int, j: int, t: Tree) returns (p: Tree, u: Tree, e: int, k: int)
    requires ContextOk(x) && UsedAt(x, n, d, i, j) && TreeAt(x, t, d, i, j) && Inner(x, d)
    ensures p.Node? && t == Appended(p, u) && TreeAt(x, p, d - 1, i, k) && TreeAt(x, u, e, k, j)
    ensures UsedAt(x, n + 1, d - 1, i, k) && UsedAt(x, n + 1, e, k, j) && LeavesAll(p.kids) == k - i
    ensures 0 <= e < |x.p.steps| && x.p.steps[e] < 0 && 0 < d && t.Node? && |t.kids| == |p.kids| + 1
  {
    hide *;
    UsedTrue(x, n, d, i, j);
    p, u, e, k := SplitOfTree(x, d, i, j, t);
    AppendedKids(p, u, i, 0);
    TreeTrue(x, p, d - 1, i, k);
    TreeTrue(x, u, e, k, j);
    PartsUsed(x, n, d, i, k, j, e);
    EnderEnds(x, e, d - 1);
    StepOn(d);
    TreeLeaves(x, p, d - 1, i, k);
  }

  lemma SplitOfTree(x: Context, d: int, i: int, j: int, t: Tree) returns (p: Tree, u: Tree, e: int, k: int)
    requires ContextOk(x) && TreeAt(x, t, d, i, j) && Inner(x, d)
    ensures InRange(x.p) && p.Node? && t == Appended(p, u) && e in EndersAfter(x.p, d - 1) && 0 < d
    ensures TreeAt(x, p, d - 1, i, k) && TreeAt(x, u, e, k, j)
  {
    CompiledSizes(x.g, x.p, x.dots);
    p, u, e, k := TreeSplits(x.g, Source(x.p, x.toks, []), x.dots, t, d, i, j);
  }

  /** A tree with subtrees is not of a token, unless its subtree is the token itself. */
  lemma KidsInner(x: Context, d: int, i: int, j: int, t: Tree)
    requires ContextOk(x) && TreeAt(x, t, d, i, j)
    ensures t.Node? && (t.kids != [] ==> Inner(x, d) || (|t.kids| == 1 && t.kids[0].Leaf?))
  {
    CompiledSizes(x.g, x.p, x.dots);
    assert DotOk(x.g, x.p, x.dots, d);
    if x.dots[d].Dot? {
      LengthOfParses(x.g, x.toks, t.kids, x.dots[d].rhs[..x.dots[d].pos], i, j);
    }
  }

  /** Every subtree of a used tree is used. */
  lemma {:induction false} KidUsed(x: Context, n: nat, d: int, i: int, j: int, t: Tree, q: nat)
    returns (m: nat, e: int, k: int, l: int)
    requires ContextOk(x) && UsedAt(x, n, d, i, j) && TreeAt(x, t, d, i, j)
    requires t.Node? && q < |t.kids| && t.kids[q].Node?
    ensures UsedAt(x, m, e, k, l) && TreeAt(x, t.kids[q], e, k, l) && k == KidStart(t, i, q)
    ensures 0 <= e < |x.p.steps| && x.p.steps[e] < 0
    decreases |t.kids|
  {
    hide *;
    KidsInner(x, d, i, j, t);
    var p, u, f, g := LastUsed(x, n, d, i, j, t);
    AppendedKids(p, u, i, q);
    if q == |p.kids| {
      m, e, k, l := n + 1, f, g, j;
    } else {
      m, e, k, l := KidUsed(x, n + 1, d - 1, i, g, p, q);
    }
  }

  lemma AppendedKids(p: Tree, u: Tree, i: int, q: nat)
    requires p.Node? && q <= |p.kids|
    ensures var t := Appended(p, u);
      && t.Node? && |t.kids| == |p.kids| + 1 && t.name == p.name && t.kids[q] == (if q == |p.kids| then u else p.kids[q])
      && KidStart(t, i, q) == i + LeavesAll(p.kids[..q]) && (q < |p.kids| ==> KidStart(p, i, q) == KidStart(t, i, q))
      && (q == |p.kids| ==> KidStart(t, i, q) == i + LeavesAll(p.kids)) && t.kids[..q] == p.kids[..q]
  {
    var t := Appended(p, u);
    assert t.kids[..q] == p.kids[..q];
    assert p.kids[..|p.kids|] == p.kids;
    hide LeavesAll;
  }

  /** A tree that stands in a used tree is used. */
  lemma {:induction false} OccurrenceUsed(x: Context, n: nat, d: int, i: int, j: int, t: Tree, w: Tree, a: int)
    returns (m: nat, e: int, l: int)
    requires ContextOk(x) && UsedAt(x, n, d, i, j) && TreeAt(x, t, d, i, j) && 0 <= d < |x.p.steps| && x.p.steps[d] < 0
    requires Occurs(t, i, w, a) && w.Node?
    ensures UsedAt(x, m, e, a, l) && TreeAt(x, w, e, a, l) && 0 <= e < |x.p.steps| && x.p.steps[e] < 0
    decreases t
  {
    hide *;
    if t == w && i == a {
      m, e, l := n, d, j;
    } else {
      var q := OccursDown(t, i, w, a);
      var o, f, k, g := KidUsed(x, n, d, i, j, t, q);
      m, e, l := OccurrenceUsed(x, o, f, k, g, t.kids[q], w, a);
    }
  }

  lemma OccursDown(t: Tree, i: int, w: Tree, a: int) returns (q: nat)
    requires Occurs(t, i, w, a) && !(t == w && i == a) && w.Node?
    ensures t.Node? && q < |t.kids| && Occurs(t.kids[q], KidStart(t, i, q), w, a) && t.kids[q].Node?
    ensures t.kids[q] < t
  {
    hide KidStart;
    q :| 0 <= q < |t.kids| && Occurs(t.kids[q], KidStart(t, i, q), w, a);
  }

  /** Every ender that the tree is of is used where one is. */
  lemma SwitchEnder(x: Context, n: nat, e: int, f: int, a: int, l: int, b: int, w: Tree)
    requires ContextOk(x) && UsedAt(x, n, e, a, l) && TreeAt(x, w, e, a, l) && TreeAt(x, w, f, a, b)
    requires 0 <= e < |x.p.steps| && x.p.steps[e] < 0 && 0 <= f < |x.p.steps| && x.p.steps[f] < 0
    ensures b == l && UsedAt(x, n, f, a, b)
  {
    hide *;
    SameStep(x, e, f, a, l, b, w);
    TreeTrue(x, w, f, a, b);
    SwitchStep(x, n, e, f, a, l);
  }

  /** And so is every other true ender of its nonterminal. */
  lemma SwitchStep(x: Context, n: nat, e: int, f: int, a: int, l: int)
    requires ContextOk(x) && UsedAt(x, n, e, a, l) && TrueItem(x, f, a, l)
    requires 0 <= e < |x.p.steps| && 0 <= f < |x.p.steps| && x.p.steps[e] == x.p.steps[f] < 0
    ensures UsedAt(x, n, f, a, l)
  {
    hide *;
    UsedTrue(x, n, e, a, l);
    if n == 0 {
      GoalSwitch(x, e, f, a, l);
    } else {
      var before, g, j, d, i := UsedFrom(x, n, e, a, l);
      if before {
        NothingAfter(x, e, g);
      } else {
        EnderListed(x, d - 1, e, f);
        AfterIntro(x, n, f, a, l, d, i);
      }
    }
  }

  /** Two enders of one tree are of one nonterminal and of one span. */
  lemma SameStep(x: Context, e: int, f: int, a: int, l: int, b: int, w: Tree)
    requires ContextOk(x) && TreeAt(x, w, e, a, l) && TreeAt(x, w, f, a, b)
    requires 0 <= e < |x.p.steps| && x.p.steps[e] < 0 && 0 <= f < |x.p.steps| && x.p.steps[f] < 0
    ensures x.p.steps[e] == x.p.steps[f] && b == l
  {
    var src := Source(x.p, x.toks, []);
    CompiledSizes(x.g, x.p, x.dots);
    EnderTree(x.g, src, x.dots, e, a, l, w);
    EnderTree(x.g, src, x.dots, f, a, b, w);
    var r, s := x.p.steps[e] + |x.p.nts|, x.p.steps[f] + |x.p.nts|;
    ParseLeaves(x.g, x.toks, w, x.p.nts[r], a, l);
    ParseLeaves(x.g, x.toks, w, x.p.nts[s], a, b);
    hide TreeAt;
    assert x.p.nts[r] == w.name.head == x.p.nts[s];
    assert r == s;
  }

  lemma GoalSwitch(x: Context, e: int, f: int, a: int, b: int)
    requires ContextOk(x) && UsedAt(x, 0, e, a, b) && TrueItem(x, f, a, b)
    requires 0 <= e < |x.p.steps| && 0 <= f < |x.p.steps| && x.p.steps[e] == x.p.steps[f]
    ensures UsedAt(x, 0, f, a, b)
  {
    assert ListsOk(x.p, x.dots, 0);
    hide TrueItem;
  }

  lemma NothingAfter(x: Context, e: int, g: int)
    requires InRange(x.p) && 0 <= e < |x.p.steps| && x.p.steps[e] < 0
    ensures g !in EndersAfter(x.p, e)
  {}

  lemma EnderListed(x: Context, prev: int, e: int, f: int)
    requires ContextOk(x) && InRange(x.p) && e in EndersAfter(x.p, prev)
    requires 0 <= e < |x.p.steps| && 0 <= f < |x.p.steps| && x.p.steps[e] == x.p.steps[f]
    ensures f in EndersAfter(x.p, prev)
  {
    assert ListsOk(x.p, x.dots, x.p.steps[prev]);
  }

  lemma AfterIntro(x: Context, n: nat, c: int, a: int, b: int, d: int, i: int)
    requires InRange(x.p) && |x.p.nts| > 0 && n > 0 && TrueItem(x, c, a, b)
    requires UsedAt(x, n - 1, d, i, b) && c in EndersAfter(x.p, d - 1) && TrueItem(x, d - 1, i, a) && Inner(x, d)
    ensures UsedAt(x, n, c, a, b)
  {
    hide TrueItem;
    hide EndersAfter;
    assert AfterSplit(x, n, c, a, b, d, i);
  }

  /** Of a used tree every beginning is used. */
  lemma {:induction false} BeginningUsed(x: Context, n: nat, d: int, a: int, l: int, t: Tree, c: int, b: int, r: nat)
    requires ContextOk(x) && UsedAt(x, n, d, a, l) && TreeAt(x, t, d, a, l) && t.Node? && r <= |t.kids|
    requires TreeAt(x, Node(t.name, t.kids[..r]), c, a, b) && 0 <= c < |x.dots| && 0 <= d < |x.dots|
    requires RuleEnd(x.dots, c) == RuleEnd(x.dots, d)
    ensures Used(x, c, a, b)
    decreases |t.kids|
  {
    hide *;
    if r == |t.kids| {
      assert t.kids[..r] == t.kids;
      SameConfiguration(x, d, a, l, t, c, b);
      UsedIntro(x, n, c, a, b);
    } else {
      ShorterInner(x, d, a, l, t, c, b, r);
      var p, u, e, k := LastUsed(x, n, d, a, l, t);
      AppendedKids(p, u, a, r);
      StepOn(d);
      SameEnd(x, d - 1);
      BeginningUsed(x, n + 1, d - 1, a, k, p, c, b, r);
    }
  }

  lemma UsedIntro(x: Context, n: nat, c: int, a: int, b: int)
    requires UsedAt(x, n, c, a, b)
    ensures Used(x, c, a, b)
  {}

  lemma ShorterInner(x: Context, d: int, a: int, l: int, t: Tree, c: int, b: int, r: nat)
    requires ContextOk(x) && TreeAt(x, t, d, a, l) && t.Node? && r < |t.kids|
    requires TreeAt(x, Node(t.name, t.kids[..r]), c, a, b) && 0 <= c < |x.dots| && 0 <= d < |x.dots|
    requires RuleEnd(x.dots, c) == RuleEnd(x.dots, d)
    ensures Inner(x, d)
  {
    KidsInner(x, d, a, l, t);
    assert DotOk(x.g, x.p, x.dots, c);
    assert DotOk(x.g, x.p, x.dots, d);
  }

  lemma SameConfiguration(x: Context, d: int, a: int, l: int, t: Tree, c: int, b: int)
    requires ContextOk(x) && TreeAt(x, t, d, a, l) && TreeAt(x, t, c, a, b) && t.Node?
    requires 0 <= c < |x.dots| && 0 <= d < |x.dots| && RuleEnd(x.dots, c) == RuleEnd(x.dots, d)
    ensures c == d && b == l
  {
    EndTells(x, d, a, l, t);
    EndTells(x, c, a, b, t);
    assert DotOk(x.g, x.p, x.dots, c);
    assert DotOk(x.g, x.p, x.dots, d);
  }

  /** The end of the rule, the subtrees and the leaves of a tree. */
  lemma EndTells(x: Context, d: int, a: int, l: int, t: Tree)
    requires ContextOk(x) && TreeAt(x, t, d, a, l) && t.Node? && 0 <= d < |x.dots|
    ensures LeavesAll(t.kids) == l - a
    ensures x.dots[d].Dot? ==> |t.kids| == x.dots[d].pos && RuleEnd(x.dots, d) >= |x.p.nts|
    ensures x.dots[d].Dot? ==> 0 <= RuleEnd(x.dots, d) < |x.dots| && x.dots[RuleEnd(x.dots, d)] == Dot(x.dots[d].head, x.dots[d].rhs, |x.dots[d].rhs|)
    ensures x.dots[d].Tok? ==> d < |x.p.nts| && |t.kids| == 1
  {
    assert DotOk(x.g, x.p, x.dots, d);
    if x.dots[d].Dot? {
      var rhs := x.dots[d].rhs[..x.dots[d].pos];
      LengthOfParses(x.g, x.toks, t.kids, rhs, a, l);
      ParsesLeaves(x.g, x.toks, t.kids, rhs, a, l);
      StartOfRule(x.g, x.p, x.dots, d);
      RuleGoesOn(x.g, x.p, x.dots, d - x.dots[d].pos, |x.dots[d].rhs|);
    } else {
      ParseLeaves(x.g, x.toks, t, x.p.nts[d], a, l);
    }
  }

  /** A parse of the whole input is a tree of a goal item, which is used. */
  lemma WholeUsed(x: Context, t: Tree) returns (e: int)
    requires ContextOk(x) && |x.p.nts| > 0 && WholeParse(x, t)
    ensures UsedAt(x, 0, e, 0, |x.toks|) && TreeAt(x, t, e, 0, |x.toks|) && 0 <= e < |x.p.steps| && x.p.steps[e] < 0
  {
    CompiledSizes(x.g, x.p, x.dots);
    e := ParseEnder(x.g, Source(x.p, x.toks, []), x.dots, 0, t, 0, |x.toks|);
    TreeTrue(x, t, e, 0, |x.toks|);
    hide WholeParse;
    hide TreeAt;
    hide TrueItem;
  }

  /** What a parse uses is used from the goal down. */
  lemma ByParseIsUsed(x: Context, c: int, a: int, b: int)
    requires ContextOk(x) && |x.p.nts| > 0 && UsedByParse(x, c, a, b)
    ensures Used(x, c, a, b)
  {
    hide *;
    var t, w, l, r := ByParseParts(x, c, a, b);
    var d := WholeUsed(x, t);
    var m, e, k := OccurrenceUsed(x, 0, d, 0, |x.toks|, t, w, a);
    CompleteSteps(x, c);
    var f := RuleEnd(x.dots, c);
    SwitchEnder(x, m, e, f, a, k, l, w);
    Complete(x, f);
    BeginningUsed(x, m, f, a, l, w, c, b, r);
  }

  lemma ByParseParts(x: Context, c: int, a: int, b: int) returns (t: Tree, w: Tree, l: int, r: nat)
    requires |x.p.nts| > 0 && UsedByParse(x, c, a, b)
    ensures WholeParse(x, t) && Occurs(t, 0, w, a) && 0 <= c < |x.dots| && w.Node?
    ensures TreeAt(x, w, RuleEnd(x.dots, c), a, l) && r <= |w.kids| && TreeAt(x, Node(w.name, w.kids[..r]), c, a, b)
  {
    hide WholeParse;
    hide Occurs;
    hide TreeAt;
    hide RuleEnd;
    t, w :| WholeParse(x, t) && Occurs(t, 0, w, a) && TreeOfRule(x, w, c, a, b);
    l :| TreeAt(x, w, RuleEnd(x.dots, c), a, l);
    r :| 0 <= r <= |w.kids| && TreeAt(x, Node(w.name, w.kids[..r]), c, a, b);
  }

  // ---- the used part of a chart

  /** The items of the chart that are used. */
  ghost function UsedChart(x: Context, chart: Chart): (r: Chart)
    ensures |r| == |chart|
  {
    seq(|chart|, j requires 0 <= j < |chart| => set q | q in chart[j] && Used(x, q.0, q.1, j))
  }

  lemma UsedChartHas(x: Context, chart: Chart, c: int, i: int, j: int)
    requires 0 <= j < |chart|
    ensures (c, i) in UsedChart(x, chart)[j] <==> (c, i) in chart[j] && Used(x, c, i, j)
  {
    hide Used;
    assert (c, i).0 == c && (c, i).1 == i;
  }

  /** It is a chart as the filter makes them. */
  lemma UsedFiltered(x: Context, chart: Chart)
    requires ContextOk(x) && |x.p.nts| > 0 && |chart| == |x.toks| + 1
    requires forall j :: 0 <= j < |chart| ==> Sound(x, chart[j], j)
    ensures EarleyFilter.Filtered(x.p, chart, UsedChart(x, chart))
  {
    hide *;
    var u := UsedChart(x, chart);
    GoalOfUsed(x, chart);
    forall j | 0 <= j < |u|
      ensures u[j] <= chart[j] && EarleyFilter.BackClosed(x.p, chart, u, u[j], j)
    {
      UsedBackClosed(x, chart, j);
    }
    FilteredIntro(x.p, chart, u);
  }

  lemma FilteredIntro(p: Tables, chart: Chart, u: Chart)
    requires EarleyFilter.GoalKept(p, chart, u)
    requires |u| == |chart| && forall j :: 0 <= j < |u| ==> u[j] <= chart[j] && EarleyFilter.BackClosed(p, chart, u, u[j], j)
    ensures EarleyFilter.Filtered(p, chart, u)
  {
    hide EarleyFilter.BackClosed;
    hide EarleyFilter.GoalKept;
  }

  lemma ChartTrueAt(x: Context, chart: Chart, c: int, i: int, j: int)
    requires 0 <= j < |chart| && Sound(x, chart[j], j) && (c, i) in chart[j]
    ensures TrueItem(x, c, i, j)
  {
    assert (c, i).0 == c && (c, i).1 == i;
  }

  lemma GoalOfUsed(x: Context, chart: Chart)
    requires ContextOk(x) && |x.p.nts| > 0 && |chart| == |x.toks| + 1
    requires forall j :: 0 <= j < |chart| ==> Sound(x, chart[j], j)
    ensures EarleyFilter.GoalKept(x.p, chart, UsedChart(x, chart))
  {
    var n := |x.toks|;
    CompiledSizes(x.g, x.p, x.dots);
    hide UsedChart;
    forall e | e in x.p.enders[0] && (e, 0) in chart[n]
      ensures (e, 0) in UsedChart(x, chart)[n]
    {
      ChartTrueAt(x, chart, e, 0, n);
      assert UsedAt(x, 0, e, 0, n);
      UsedIntro(x, 0, e, 0, n);
      UsedChartHas(x, chart, e, 0, n);
    }
  }

  lemma UsedBackClosed(x: Context, chart: Chart, j: int)
    requires ContextOk(x) && |x.p.nts| > 0 && 0 <= j < |chart|
    requires forall k :: 0 <= k < |chart| ==> Sound(x, chart[k], k)
    ensures var u := UsedChart(x, chart); u[j] <= chart[j] && EarleyFilter.BackClosed(x.p, chart, u, u[j], j)
  {
    var u := UsedChart(x, chart);
    hide UsedChart;
    forall q | q in u[j]
      ensures q in chart[j] && EarleyFilter.ItemKept(x.p, chart, u, q.0, q.1, j)
    {
      UsedChartHas(x, chart, q.0, q.1, j);
      assert q == (q.0, q.1);
      UsedItemKept(x, chart, u, q.0, q.1, j);
    }
  }

  lemma UsedItemKept(x: Context, chart: Chart, u: Chart, c: int, i: int, j: int)
    requires ContextOk(x) && |x.p.nts| > 0 && 0 <= j < |chart| && u == UsedChart(x, chart) && Used(x, c, i, j)
    requires forall k :: 0 <= k < |chart| ==> Sound(x, chart[k], k)
    ensures EarleyFilter.ItemKept(x.p, chart, u, c, i, j)
  {
    CompiledSizes(x.g, x.p, x.dots);
    if |x.p.nts| <= c < |x.p.steps| && 0 < c && 0 <= x.p.steps[c - 1] < |x.p.enders| {
      var l := x.p.enders[x.p.steps[c - 1]];
      InnerAfter(x, c);
      hide ContextOk;
      hide UsedChart;
      forall e | e in l
        ensures EarleyFilter.EnderKept(chart, u, c - 1, e, i, j)
      {
        UsedEnderKept(x, chart, u, c, c - 1, e, i, j);
      }
    }
  }

  lemma UsedEnderKept(x: Context, chart: Chart, u: Chart, c: int, prev: int, e: int, i: int, j: int)
    requires 0 <= j < |chart| && u == UsedChart(x, chart) && Used(x, c, i, j) && Inner(x, c) && InRange(x.p)
    requires prev == c - 1 && e in EndersAfter(x.p, prev) && forall k :: 0 <= k < |chart| ==> Sound(x, chart[k], k)
    ensures EarleyFilter.EnderKept(chart, u, prev, e, i, j)
  {
    hide UsedChart;
    hide Used;
    hide EndersAfter;
    hide TrueItem;
    forall k | 0 <= k <= j
      ensures EarleyFilter.SplitKept(chart, u, prev, e, i, k, j)
    {
      if i <= k && (prev, i) in chart[k] && (e, k) in chart[j] {
        ChartTrueAt(x, chart, prev, i, k);
        ChartTrueAt(x, chart, e, k, j);
        SplitUsed(x, c, i, k, j, e);
        UsedChartHas(x, chart, prev, i, k);
        UsedChartHas(x, chart, e, k, j);
      }
    }
  }

  lemma InnerAfter(x: Context, c: int)
    requires ContextOk(x) && |x.p.nts| <= c < |x.p.steps| && 0 < c && 0 <= x.p.steps[c - 1] < |x.p.enders|
    ensures Inner(x, c) && InRange(x.p) && x.p.enders[x.p.steps[c - 1]] == EndersAfter(x.p, c - 1)
  {
    CompiledSizes(x.g, x.p, x.dots);
    assert DotOk(x.g, x.p, x.dots, c);
    assert DotOk(x.g, x.p, x.dots, c - 1);
  }

  lemma SplitUsed(x: Context, c: int, i: int, k: int, j: int, e: int)
    requires Used(x, c, i, j) && Inner(x, c) && InRange(x.p) && e in EndersAfter(x.p, c - 1)
    requires TrueItem(x, c - 1, i, k) && TrueItem(x, e, k, j)
    ensures Used(x, c - 1, i, k) && Used(x, e, k, j)
  {
    hide UsedAt;
    var n: nat :| UsedAt(x, n, c, i, j);
    PartsUsed(x, n, c, i, k, j, e);
  }

  // ---- the second chart is that part

  ghost function ContextOf(z: Charts): Context {
    Context(z.g, z.x.toks, z.x.p, z.dots)
  }

  /** Used items are kept, and begun where they begin. */
  lemma {:induction false} UsedHeld(z: Charts, n: nat, c: int, a: int, b: int)
    requires Ready(z) && UsedAt(ContextOf(z), n, c, a, b)
    ensures Held(z, c, a, b) && Begun(z, c, a)
    decreases n
  {
    hide *;
    var x := ContextOf(z);
    ReadyContext(z);
    UsedTrue(x, n, c, a, b);
    if n == 0 {
      GoalHeld(z, c, a, b);
    } else {
      var before, e, j, d, i := UsedFrom(x, n, c, a, b);
      if before {
        UsedHeld(z, n - 1, c + 1, a, j);
        var p := TrueHasTree(x, c, a, b);
        var u := TrueHasTree(x, e, b, j);
        StepBack(c);
        SplitOfHeld(z, c + 1, a, b, j, e, p, u);
      } else {
        UsedHeld(z, n - 1, d, i, b);
        var p := TrueHasTree(x, d - 1, i, a);
        var u := TrueHasTree(x, c, a, b);
        SplitOfHeld(z, d, i, a, b, c, p, u);
      }
    }
  }

  lemma ReadyContext(z: Charts)
    requires Ready(z)
    ensures ContextOk(ContextOf(z)) && ContextOf(z).p == z.x.p && ContextOf(z).toks == z.x.toks
    ensures ContextOf(z).dots == z.dots && ContextOf(z).g == z.g
  {}

  lemma SplitOfHeld(z: Charts, d: int, i: int, k: int, j: int, e: int, p: Tree, u: Tree)
    requires Ready(z) && Held(z, d, i, j) && Begun(z, d, i) && Inner(ContextOf(z), d) && InRange(z.x.p)
    requires e in EndersAfter(z.x.p, d - 1) && TreeAt(ContextOf(z), p, d - 1, i, k) && TreeAt(ContextOf(z), u, e, k, j)
    ensures Held(z, d - 1, i, k) && Begun(z, d - 1, i) && Held(z, e, k, j) && Begun(z, e, k)
  {
    ReadyContext(z);
    SameEnd(ContextOf(z), d - 1);
    hide Ready;
    hide ContextOk;
    hide Held;
    hide Begun;
    hide ItemTree;
    PartsHeld(z, d, i, j, e, k, p, u);
  }

  lemma GoalHeld(z: Charts, c: int, a: int, b: int)
    requires Ready(z) && UsedAt(ContextOf(z), 0, c, a, b)
    ensures Held(z, c, a, b) && Begun(z, c, a)
  {
    ReadyContext(z);
    var x := ContextOf(z);
    var t := TrueHasTree(x, c, a, b);
    WholeAsked(z);
    SpanRange(z, Whole(z));
    hide Ready;
    hide ContextOk;
    hide TrueItem;
    CompleteRange(x, c);
    TreeAtIs(z, t, c, a, b);
    GoalEnderHeld(z, c, t);
  }

  lemma CompleteRange(x: Context, c: int)
    requires ContextOk(x) && TrueItem(x, c, 0, |x.toks|)
    ensures 0 <= c < |x.dots|
  {}

  lemma TreeAtIs(z: Charts, t: Tree, c: int, i: int, j: int)
    requires TreeAt(ContextOf(z), t, c, i, j)
    ensures IsTree(z, t, c, i, j)
  {}

  /** The items of the second chart are those that some parse of the whole input uses. */
  lemma KeptExactly(z: Charts, c: int, a: int, b: int)
    requires Ready(z) && |z.x.p.nts| > 0 && |z.m| == |z.chart|
    requires forall k :: 0 <= k < |z.m| ==> z.m[k] <= UsedChart(ContextOf(z), z.chart)[k]
    ensures Held(z, c, a, b) <==> UsedByParse(ContextOf(z), c, a, b)
  {
    hide *;
    var x := ContextOf(z);
    ReadyContext(z);
    if Held(z, c, a, b) {
      HeldUsed(z, c, a, b);
      var n := UsedSome(x, c, a, b);
      UsedIsByParse(x, n, c, a, b);
    }
    if UsedByParse(x, c, a, b) {
      ByParseIsUsed(x, c, a, b);
      var n := UsedSome(x, c, a, b);
      UsedHeld(z, n, c, a, b);
    }
  }

  lemma UsedSome(x: Context, c: int, a: int, b: int) returns (n: nat)
    requires Used(x, c, a, b)
    ensures UsedAt(x, n, c, a, b)
  {
    n :| UsedAt(x, n, c, a, b);
  }

  lemma HeldUsed(z: Charts, c: int, a: int, b: int)
    requires Held(z, c, a, b) && |z.m| == |z.chart|
    requires forall k :: 0 <= k < |z.m| ==> z.m[k] <= UsedChart(ContextOf(z), z.chart)[k]
    ensures Used(ContextOf(z), c, a, b)
  {
    hide UsedChart;
    UsedChartHas(ContextOf(z), z.chart, c, a, b);
  }

  // ---- nonterminals and spans

  /** Some parse of the whole input has a parse of `nt` over tokens `i..j` in it. */
  ghost predicate SpanUsed(x: Context, nt: Symbol, i: int, j: int)
    requires |x.p.nts| > 0
  {
    exists t, u :: WholeParse(x, t) && Occurs(t, 0, u, i) && IsParse(x.g, x.toks, u, nt, i, j)
  }

  /** The second chart reports a nonterminal and a span if and only if some parse of the whole input uses them. */
  lemma SpansExactly(z: Charts, nt: Symbol, i: int, j: int)
    requires Ready(z) && |z.x.p.nts| > 0 && |z.m| == |z.chart| && |z.x.p.enders| == |z.x.p.nts| && 0 <= j < |z.m|
    requires forall k :: 0 <= k < |z.m| ==> z.m[k] <= UsedChart(ContextOf(z), z.chart)[k]
    ensures EarleyFilter.Spans(z.x.p, z.m, nt, i, j) <==> SpanUsed(ContextOf(z), nt, i, j)
  {
    hide *;
    var x := ContextOf(z);
    ReadyContext(z);
    if EarleyFilter.Spans(z.x.p, z.m, nt, i, j) {
      var y, e := SpanEnder(z, nt, i, j);
      KeptExactly(z, e, i, j);
      var t, w, l, r := ByParseParts(x, e, i, j);
      EnderIsParse(x, y, e, w, i, j, l, r);
      SpanIntro(x, t, w, nt, i, j);
    }
    if SpanUsed(x, nt, i, j) {
      var t, u := SpanParts(x, nt, i, j);
      var d := WholeUsed(x, t);
      var m, e, l := OccurrenceUsed(x, 0, d, 0, |x.toks|, t, u, i);
      UsedHeld(z, m, e, i, l);
      EnderSpan(z, u, nt, e, i, j, l);
    }
  }

  lemma SpanEnder(z: Charts, nt: Symbol, i: int, j: int) returns (y: int, e: int)
    requires Ready(z) && |z.x.p.enders| == |z.x.p.nts| && 0 <= j < |z.m| && EarleyFilter.Spans(z.x.p, z.m, nt, i, j)
    ensures 0 <= y < |z.x.p.nts| && z.x.p.nts[y] == nt && e in z.x.p.enders[y] && Held(z, e, i, j)
  {
    y, e :| 0 <= y < |z.x.p.nts| && z.x.p.nts[y] == nt && e in z.x.p.enders[y] && (e, i) in z.m[j];
  }

  lemma EnderIsParse(x: Context, y: int, e: int, w: Tree, i: int, j: int, l: int, r: nat)
    requires ContextOk(x) && 0 <= y < |x.p.nts| == |x.p.enders| && e in x.p.enders[y] && 0 <= e < |x.dots| && w.Node?
    requires TreeAt(x, w, RuleEnd(x.dots, e), i, l) && r <= |w.kids| && TreeAt(x, Node(w.name, w.kids[..r]), e, i, j)
    ensures IsParse(x.g, x.toks, w, x.p.nts[y], i, j)
  {
    assert ListsOk(x.p, x.dots, y);
    Complete(x, e);
    var v := Node(w.name, w.kids[..r]);
    EndTells(x, e, i, l, w);
    EndTells(x, e, i, j, v);
    var src := Source(x.p, x.toks, []);
    EnderTree(x.g, src, x.dots, e, i, j, v);
    EnderTree(x.g, src, x.dots, e, i, l, w);
    hide TreeAt;
    hide ContextOk;
    assert r == |w.kids| && w.kids[..r] == w.kids;
  }

  lemma SpanIntro(x: Context, t: Tree, u: Tree, nt: Symbol, i: int, j: int)
    requires |x.p.nts| > 0 && WholeParse(x, t) && Occurs(t, 0, u, i) && IsParse(x.g, x.toks, u, nt, i, j)
    ensures SpanUsed(x, nt, i, j)
  {
    hide WholeParse;
    hide Occurs;
    hide IsParse;
  }

  lemma SpanParts(x: Context, nt: Symbol, i: int, j: int) returns (t: Tree, u: Tree)
    requires |x.p.nts| > 0 && SpanUsed(x, nt, i, j)
    ensures WholeParse(x, t) && Occurs(t, 0, u, i) && IsParse(x.g, x.toks, u, nt, i, j) && u.Node?
  {
    hide WholeParse;
    hide Occurs;
    t, u :| WholeParse(x, t) && Occurs(t, 0, u, i) && IsParse(x.g, x.toks, u, nt, i, j);
  }

  lemma EnderSpan(z: Charts, u: Tree, nt: Symbol, e: int, i: int, j: int, l: int)
    requires Ready(z) && |z.x.p.enders| == |z.x.p.nts| && Held(z, e, i, l) && TreeAt(ContextOf(z), u, e, i, l)
    requires 0 <= e < |z.x.p.steps| && z.x.p.steps[e] < 0 && IsParse(z.g, z.x.toks, u, nt, i, j) && 0 <= j < |z.m|
    ensures EarleyFilter.Spans(z.x.p, z.m, nt, i, j)
  {
    ReadyContext(z);
    var x := ContextOf(z);
    EnderTree(x.g, Source(x.p, x.toks, []), x.dots, e, i, l, u);
    var y := x.p.steps[e] + |x.p.nts|;
    ParseLeaves(x.g, x.toks, u, nt, i, j);
    ParseLeaves(x.g, x.toks, u, x.p.nts[y], i, l);
    assert ListsOk(x.p, x.dots, y);
    hide Ready;
    hide ContextOk;
    assert x.p.nts[y] == u.name.head == nt;
    assert e in x.p.enders[y] && (e, i) in z.m[j];
  }

  /** A nonterminal and a span that some parse uses: every ender with a tree there is kept. */
  lemma UsedAsked(z: Charts, w: Query)
    requires Ready(z) && w.nt < |z.x.p.nts| == |z.x.p.enders| && w.i <= w.j < |z.x.states|
    requires SpanUsed(ContextOf(z), z.x.p.nts[w.nt], w.i, w.j)
    ensures Asked(z, w)
  {
    hide *;
    var x := ContextOf(z);
    ReadyContext(z);
    var t, u := SpanParts(x, z.x.p.nts[w.nt], w.i, w.j);
    var d := WholeUsed(x, t);
    var m, e, l := OccurrenceUsed(x, 0, d, 0, |x.toks|, t, u, w.i);
    EnderAt(x, u, w.nt, e, w.i, w.j, l);
    forall f, s | f in z.x.p.enders[w.nt] && IsTree(z, s, f, w.i, w.j)
      ensures Held(z, f, w.i, w.j) && Begun(z, f, w.i)
    {
      EnderSteps(x, w.nt, f);
      TreeAtOf(z, s, f, w.i, w.j);
      TreeTrue(x, s, f, w.i, w.j);
      SwitchStep(x, m, e, f, w.i, w.j);
      UsedHeld(z, m, f, w.i, w.j);
    }
    AskedIntro(z, w);
  }

  lemma AskedIntro(z: Charts, w: Query)
    requires Ready(z) && w.nt < |z.x.p.nts| && w.nt < |z.x.p.enders| && w.i <= w.j < |z.x.states|
    requires forall f, s :: f in z.x.p.enders[w.nt] && IsTree(z, s, f, w.i, w.j) ==> Held(z, f, w.i, w.j) && Begun(z, f, w.i)
    ensures Asked(z, w)
  {
    hide Ready;
    hide IsTree;
    hide Held;
    hide Begun;
  }

  lemma TreeAtOf(z: Charts, t: Tree, c: int, i: int, j: int)
    requires IsTree(z, t, c, i, j)
    ensures TreeAt(ContextOf(z), t, c, i, j)
  {}

  lemma EnderSteps(x: Context, nt: nat, f: int)
    requires ContextOk(x) && nt < |x.p.nts| == |x.p.enders| && f in x.p.enders[nt]
    ensures 0 <= f < |x.p.steps| && x.p.steps[f] == nt - |x.p.nts|
  {
    assert ListsOk(x.p, x.dots, nt);
  }

  lemma EnderAt(x: Context, u: Tree, nt: nat, e: int, i: int, j: int, l: int)
    requires ContextOk(x) && nt < |x.p.nts| && TreeAt(x, u, e, i, l)
    requires 0 <= e < |x.p.steps| && x.p.steps[e] < 0 && IsParse(x.g, x.toks, u, x.p.nts[nt], i, j)
    ensures l == j && x.p.steps[e] == nt - |x.p.nts|
  {
    CompiledSizes(x.g, x.p, x.dots);
    EnderTree(x.g, Source(x.p, x.toks, []), x.dots, e, i, l, u);
    var y := x.p.steps[e] + |x.p.nts|;
    ParseLeaves(x.g, x.toks, u, x.p.nts[nt], i, j);
    ParseLeaves(x.g, x.toks, u, x.p.nts[y], i, l);
    hide TreeAt;
    assert x.p.nts[y] == u.name.head == x.p.nts[nt];
    assert y == nt;
  }
}
