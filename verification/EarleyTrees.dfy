/** Reading parse trees off a chart, and counting them. */
module EarleyTrees {
  import opened EarleyGrammar
  import opened EarleyStates
  import opened Options

  /** A tree is a named list: of one token, or of the trees of a rule's symbols. */
  datatype Tree = Leaf(value: string) | Node(name: Name, kids: seq<Tree>)

  /** What the enumeration reads: the tables, the tokens' values, the configuration sets. */
  datatype Source = Source(p: Tables, toks: seq<Token>, states: seq<map<int, ConfSet>>)

  ghost predicate Within(s: seq<int>, n: int) {
    forall t :: 0 <= t < |s| ==> 0 <= s[t] < n
  }

  /** The positions linked from `k` on, as the loops follow them. */
  function Chain(cs: ConfSet, k: int, limit: int, fuel: nat): (r: seq<int>)
    ensures Within(r, limit + 1) && forall t :: 0 <= t < |r| ==> r[t] + 5 in cs
    decreases fuel
  {
    if fuel > 0 && 0 <= k <= limit && k + 5 in cs then [k] + Chain(cs, cs[k + 5], limit, fuel - 1) else []
  }

  /** The settled positions of `conf` in state `j`. */
  function Positions(x: Source, conf: int, j: int): (r: seq<int>)
    requires 0 <= j < |x.states|
    ensures Within(r, j + 1)
    ensures forall t :: 0 <= t < |r| ==> Holds(x, conf, r[t], j)
  {
    if conf in x.states[j] && 2 in x.states[j][conf]
    then Chain(x.states[j][conf], x.states[j][conf][2], j, |x.states[j][conf]|) else []
  }

  predicate Holds(x: Source, conf: int, i: int, j: int)
    requires 0 <= j < |x.states|
  {
    i >= 0 && conf in x.states[j] && i + 5 in x.states[j][conf]
  }

  /** In a well-formed set the walk finds exactly the settled list. */
  lemma {:induction false} ChainSettled(cs: ConfSet, v: View, size: nat, t: nat, fuel: nat)
    requires IsConfSet(cs, v, size) && t <= |v.settled| && fuel >= |v.settled| - t
    ensures Chain(cs, PositionAt(v.settled, t), size - 1, fuel) == v.settled[t..]
    decreases fuel
  {
    if t < |v.settled| {
      SettledLink(cs, v, size, t);
      ChainSettled(cs, v, size, t + 1, fuel - 1);
      assert v.settled[t..] == [v.settled[t]] + v.settled[t + 1..];
    }
  }

  /** The enders of the nonterminal that `prev` waits for; past the tables there are none. */
  function EndersAfter(p: Tables, prev: int): (l: seq<int>)
    requires InRange(p)
    ensures Within(l, |p.steps|) && (l != [] ==> 0 <= prev < |p.steps|)
  {
    if 0 <= prev < |p.steps| && 0 <= p.steps[prev] < |p.enders| then
      var l := p.enders[p.steps[prev]];
      assert forall t :: 0 <= t < |l| ==> l[t] in l;
      l
    else []
  }

  /** `(append tree (list e))` */
  function Appended(tree: Tree, e: Tree): Tree {
    match tree
    case Leaf(_) => tree
    case Node(name, kids) => Node(name, kids + [e])
  }

  /** The two innermost loops: every tree of the prefix with every tree of the last symbol. */
  function Extend(prevs: seq<Tree>, e: Tree, acc: seq<Tree>): (r: seq<Tree>)
    ensures |r| == |acc| + |prevs|
    decreases |prevs|
  {
    if prevs == [] then acc else Extend(prevs[1..], e, [Appended(prevs[0], e)] + acc)
  }

  function Combine(prevs: seq<Tree>, enders: seq<Tree>, acc: seq<Tree>): (r: seq<Tree>)
    decreases |enders|
  {
    if enders == [] then acc else Combine(prevs, enders[1..], Extend(prevs, enders[0], acc))
  }

  lemma {:induction false} CombineLength(prevs: seq<Tree>, enders: seq<Tree>, acc: seq<Tree>)
    ensures |Combine(prevs, enders, acc)| == |acc| + |prevs| * |enders|
    decreases |enders|
  {
    if enders != [] {
      CombineLength(prevs, enders[1..], Extend(prevs, enders[0], acc));
      assert |prevs| * |enders| == |prevs| + |prevs| * (|enders| - 1);
    }
  }

  /** `deriv_trees`, cut off at depth `fuel`: on a cyclic chart it does not end. */
  function DerivTrees(x: Source, conf: int, i: nat, j: nat, fuel: nat): Option<seq<Tree>>
    requires InRange(x.p) && 0 <= conf < |x.p.steps| && j < |x.states|
    decreases fuel, 0
  {
    if fuel == 0 then None
    else if x.p.names[conf].Name? then
      if conf < |x.p.nts|
      then Some([Node(x.p.names[conf], if i < |x.toks| then [Leaf(x.toks[i].value)] else [])])
      else Some([Node(x.p.names[conf], [])])
    else TreesByEnder(x, conf - 1, i, j, EndersAfter(x.p, conf - 1), [], fuel - 1)
  }

  function TreesByEnder(x: Source, prev: int, i: nat, j: nat, l: seq<int>, acc: seq<Tree>, fuel: nat): Option<seq<Tree>>
    requires InRange(x.p) && j < |x.states| && Within(l, |x.p.steps|)
    requires l != [] ==> 0 <= prev < |x.p.steps|
    decreases fuel, 2, |l|
  {
    if l == [] then Some(acc)
    else match TreesBySplit(x, prev, l[0], i, j, Positions(x, l[0], j), acc, fuel)
      case None => None
      case Some(acc') => TreesByEnder(x, prev, i, j, l[1..], acc', fuel)
  }

  function TreesBySplit(x: Source, prev: int, ender: int, i: nat, j: nat, ks: seq<int>, acc: seq<Tree>, fuel: nat): Option<seq<Tree>>
    requires InRange(x.p) && j < |x.states| && 0 <= ender < |x.p.steps| && 0 <= prev < |x.p.steps|
    requires Within(ks, j + 1)
    decreases fuel, 1, |ks|
  {
    if ks == [] then Some(acc)
    else if ks[0] >= i && Holds(x, prev, i, ks[0]) then
      var k: nat := ks[0];
      match (DerivTrees(x, prev, i, k, fuel), DerivTrees(x, ender, k, j, fuel))
      case (Some(ps), Some(es)) => TreesBySplit(x, prev, ender, i, j, ks[1..], Combine(ps, es, acc), fuel)
      case _ => None
    else TreesBySplit(x, prev, ender, i, j, ks[1..], acc, fuel)
  }

  /** `nb_deriv_trees`, cut off in the same way. */
  function NbDerivTrees(x: Source, conf: int, i: nat, j: nat, fuel: nat): Option<nat>
    requires InRange(x.p) && 0 <= conf < |x.p.steps| && j < |x.states|
    decreases fuel, 0
  {
    if fuel == 0 then None
    else if conf < |x.p.nts| || (conf > 0 && x.p.steps[conf - 1] < 0) then Some(1)
    else CountByEnder(x, conf - 1, i, j, EndersAfter(x.p, conf - 1), 0, fuel - 1)
  }

  function CountByEnder(x: Source, prev: int, i: nat, j: nat, l: seq<int>, n: nat, fuel: nat): Option<nat>
    requires InRange(x.p) && j < |x.states| && Within(l, |x.p.steps|)
    requires l != [] ==> 0 <= prev < |x.p.steps|
    decreases fuel, 2, |l|
  {
    if l == [] then Some(n)
    else match CountBySplit(x, prev, l[0], i, j, Positions(x, l[0], j), n, fuel)
      case None => None
      case Some(n') => CountByEnder(x, prev, i, j, l[1..], n', fuel)
  }

  function CountBySplit(x: Source, prev: int, ender: int, i: nat, j: nat, ks: seq<int>, n: nat, fuel: nat): Option<nat>
    requires InRange(x.p) && j < |x.states| && 0 <= ender < |x.p.steps| && 0 <= prev < |x.p.steps|
    requires Within(ks, j + 1)
    decreases fuel, 1, |ks|
  {
    if ks == [] then Some(n)
    else if ks[0] >= i && Holds(x, prev, i, ks[0]) then
      var k: nat := ks[0];
      match (NbDerivTrees(x, prev, i, k, fuel), NbDerivTrees(x, ender, k, j, fuel))
      case (Some(a), Some(b)) => CountBySplit(x, prev, ender, i, j, ks[1..], n + a * b, fuel)
      case _ => None
    else CountBySplit(x, prev, ender, i, j, ks[1..], n, fuel)
  }

  // ---- counting agrees with enumerating

  /** The two base cases coincide: a configuration is named exactly when the one before it ends a rule. */
  ghost predicate NamesAgree(p: Tables) {
    && |p.names| == |p.steps|
    && forall c :: 0 <= c < |p.steps| ==> (p.names[c].Name? <==> c < |p.nts| || (c > 0 && p.steps[c - 1] < 0))
  }

  lemma CompiledNamesAgree(g: Grammar, p: Tables, dots: seq<Dot>)
    requires Compiled(g, p, dots)
    ensures NamesAgree(p)
  {
    forall c | 0 <= c < |p.steps|
      ensures p.names[c].Name? <==> c < |p.nts| || (c > 0 && p.steps[c - 1] < 0)
    {
      assert DotOk(g, p, dots, c);
      if c > |p.nts| {
        assert DotOk(g, p, dots, c - 1);
      }
    }
  }

  ghost predicate SameCount(trees: Option<seq<Tree>>, n: Option<nat>) {
    (trees.None? <==> n.None?) && (trees.Some? && n.Some? ==> |trees.value| == n.value)
  }

  /** The count is the number of trees enumerated, on every chart and at every depth. */
  lemma {:induction false} CountAgrees(x: Source, conf: int, i: nat, j: nat, fuel: nat)
    requires InRange(x.p) && NamesAgree(x.p) && 0 <= conf < |x.p.steps| && j < |x.states|
    ensures SameCount(DerivTrees(x, conf, i, j, fuel), NbDerivTrees(x, conf, i, j, fuel))
    decreases fuel, 0
  {
    if fuel > 0 && !x.p.names[conf].Name? {
      CountAgreesByEnder(x, conf - 1, i, j, EndersAfter(x.p, conf - 1), [], fuel - 1);
    }
  }

  lemma {:induction false} CountAgreesByEnder(x: Source, prev: int, i: nat, j: nat, l: seq<int>, acc: seq<Tree>, fuel: nat)
    requires InRange(x.p) && NamesAgree(x.p) && j < |x.states| && Within(l, |x.p.steps|)
    requires l != [] ==> 0 <= prev < |x.p.steps|
    ensures SameCount(TreesByEnder(x, prev, i, j, l, acc, fuel), CountByEnder(x, prev, i, j, l, |acc|, fuel))
    decreases fuel, 2, |l|
  {
    if l != [] {
      var ks := Positions(x, l[0], j);
      CountAgreesBySplit(x, prev, l[0], i, j, ks, acc, fuel);
      var next := TreesBySplit(x, prev, l[0], i, j, ks, acc, fuel);
      if next.Some? {
        CountAgreesByEnder(x, prev, i, j, l[1..], next.value, fuel);
      }
    }
  }

  lemma {:induction false} CountAgreesBySplit(x: Source, prev: int, ender: int, i: nat, j: nat, ks: seq<int>,
                                              acc: seq<Tree>, fuel: nat)
    requires InRange(x.p) && NamesAgree(x.p) && j < |x.states| && 0 <= ender < |x.p.steps| && 0 <= prev < |x.p.steps|
    requires Within(ks, j + 1)
    ensures SameCount(TreesBySplit(x, prev, ender, i, j, ks, acc, fuel), CountBySplit(x, prev, ender, i, j, ks, |acc|, fuel))
    decreases fuel, 1, |ks|
  {
    if ks != [] {
      if ks[0] >= i && Holds(x, prev, i, ks[0]) {
        var k: nat := ks[0];
        CountAgrees(x, prev, i, k, fuel);
        CountAgrees(x, ender, k, j, fuel);
        var ps, es := DerivTrees(x, prev, i, k, fuel), DerivTrees(x, ender, k, j, fuel);
        if ps.Some? && es.Some? {
          CombineLength(ps.value, es.value, acc);
          CountAgreesBySplit(x, prev, ender, i, j, ks[1..], Combine(ps.value, es.value, acc), fuel);
        }
      } else {
        CountAgreesBySplit(x, prev, ender, i, j, ks[1..], acc, fuel);
      }
    }
  }

  // ---- every tree enumerated is a parse

  /** `tree` parses tokens `i..j` as an `s`: it is a token of that kind, or named by an alternative of `s` and made
      of parses of its symbols. */
  ghost predicate IsParse(g: Grammar, toks: seq<Token>, tree: Tree, s: Symbol, i: int, j: int)
    decreases tree
  {
    match tree
    case Leaf(_) => false
    case Node(name, kids) =>
      && name.Name? && name.head == s
      && if name.rule == 0 then 0 <= i < |toks| && j == i + 1 && s in toks[i].kinds && kids == [Leaf(toks[i].value)]
         else exists rhs :: IsAlternative(g, name, rhs) && AreParses(g, toks, kids, rhs, i, j)
  }

  /** The trees parse the symbols of `rhs` one after the other. */
  ghost predicate AreParses(g: Grammar, toks: seq<Token>, kids: seq<Tree>, rhs: seq<Symbol>, i: int, j: int)
    decreases kids
  {
    if kids == [] then rhs == [] && 0 <= i == j <= |toks|
    else
      var last := |kids| - 1;
      |rhs| == |kids|
      && exists k :: AreParses(g, toks, kids[..last], rhs[..last], i, k) && IsParse(g, toks, kids[last], rhs[last], k, j)
  }

  /** `tree` is what configuration `conf` has read from `i` to `j`. */
  ghost predicate ItemTree(g: Grammar, toks: seq<Token>, p: Tables, dots: seq<Dot>, tree: Tree, conf: int, i: int, j: int) {
    && 0 <= conf < |dots| && |p.nts| <= |dots| <= |p.names|
    && match dots[conf]
       case Tok => conf < |p.nts| && tree.Node? && tree.name == p.names[conf] && IsParse(g, toks, tree, p.nts[conf], i, j)
       case Dot(head, rhs, pos) =>
         && pos <= |rhs| && pos <= conf && tree.Node? && tree.name == p.names[conf - pos]
         && AreParses(g, toks, tree.kids, rhs[..pos], i, j)
  }

  ghost predicate AllItemTrees(g: Grammar, x: Source, dots: seq<Dot>, trees: seq<Tree>, conf: int, i: int, j: int) {
    forall t :: 0 <= t < |trees| ==> ItemTree(g, x.toks, x.p, dots, trees[t], conf, i, j)
  }

  /** Every item of the chart is true. */
  ghost predicate ChartTrue(g: Grammar, x: Source, dots: seq<Dot>) {
    forall c, i, j :: 0 <= j < |x.states| && Holds(x, c, i, j) ==> ItemTrue(g, x.toks, x.p, dots, c, i, j)
  }

  /** The tree of a prefix with the tree of the next symbol. */
  lemma AppendedTree(g: Grammar, x: Source, dots: seq<Dot>, prev: int, ender: int, i: int, k: int, j: int, ps: Tree, es: Tree)
    requires Compiled(g, x.p, dots) && 0 <= prev < |dots| - 1 && dots[prev].Dot? && dots[prev].pos < |dots[prev].rhs|
    requires 0 <= ender < |dots| && x.p.steps[ender] == x.p.steps[prev] - |x.p.nts|
    requires ItemTree(g, x.toks, x.p, dots, ps, prev, i, k) && ItemTree(g, x.toks, x.p, dots, es, ender, k, j)
    ensures ItemTree(g, x.toks, x.p, dots, Appended(ps, es), prev + 1, i, j)
  {
    assert DotOk(g, x.p, dots, prev);
    assert DotOk(g, x.p, dots, ender);
    var rhs, pos := dots[prev].rhs, dots[prev].pos;
    EnderTree(g, x, dots, ender, k, j, es);
    var kids := ps.kids + [es];
    assert kids[..|kids| - 1] == ps.kids && rhs[..pos + 1][..pos] == rhs[..pos];
    LengthOfParses(g, x.toks, ps.kids, rhs[..pos], i, k);
    assert AreParses(g, x.toks, kids, rhs[..pos + 1], i, j);
  }

  lemma LengthOfParses(g: Grammar, toks: seq<Token>, kids: seq<Tree>, rhs: seq<Symbol>, i: int, j: int)
    requires AreParses(g, toks, kids, rhs, i, j)
    ensures |kids| == |rhs|
  {}

  /** The first configuration of a rule, from any other of it. */
  lemma {:induction false} StartOfRule(g: Grammar, p: Tables, dots: seq<Dot>, c: int)
    requires Compiled(g, p, dots) && 0 <= c < |dots| && dots[c].Dot?
    ensures var s := c - dots[c].pos;
      && |p.nts| <= s <= c && dots[s] == Dot(dots[c].head, dots[c].rhs, 0) && dots[c].pos <= |dots[c].rhs|
      && IsAlternative(g, p.names[s], dots[s].rhs) && p.names[s].head == dots[s].head
    decreases c
  {
    assert DotOk(g, p, dots, c);
    if dots[c].pos > 0 {
      StartOfRule(g, p, dots, c - 1);
    }
  }

  /** The tree of a completed configuration parses its nonterminal. */
  lemma EnderTree(g: Grammar, x: Source, dots: seq<Dot>, ender: int, k: int, j: int, tree: Tree)
    requires Compiled(g, x.p, dots) && 0 <= ender < |dots| && x.p.steps[ender] < 0
    requires ItemTree(g, x.toks, x.p, dots, tree, ender, k, j)
    ensures -|x.p.nts| <= x.p.steps[ender]
    ensures IsParse(g, x.toks, tree, x.p.nts[x.p.steps[ender] + |x.p.nts|], k, j)
  {
    assert DotOk(g, x.p, dots, ender);
    if dots[ender].Dot? {
      StartOfRule(g, x.p, dots, ender);
      assert dots[ender].rhs[..dots[ender].pos] == dots[ender].rhs;
    }
  }

  lemma {:induction false} ExtendTrees(g: Grammar, x: Source, dots: seq<Dot>, prev: int, ender: int, i: int, k: int, j: int,
                                       ps: seq<Tree>, e: Tree, acc: seq<Tree>)
    requires Compiled(g, x.p, dots) && 0 <= prev < |dots| - 1 && dots[prev].Dot? && dots[prev].pos < |dots[prev].rhs|
    requires 0 <= ender < |dots| && x.p.steps[ender] == x.p.steps[prev] - |x.p.nts|
    requires AllItemTrees(g, x, dots, ps, prev, i, k) && ItemTree(g, x.toks, x.p, dots, e, ender, k, j)
    requires AllItemTrees(g, x, dots, acc, prev + 1, i, j)
    ensures AllItemTrees(g, x, dots, Extend(ps, e, acc), prev + 1, i, j)
    decreases |ps|
  {
    if ps != [] {
      AppendedTree(g, x, dots, prev, ender, i, k, j, ps[0], e);
      hide Compiled;
      hide ItemTree;
      ExtendTrees(g, x, dots, prev, ender, i, k, j, ps[1..], e, [Appended(ps[0], e)] + acc);
    }
  }

  lemma {:induction false} CombineTrees(g: Grammar, x: Source, dots: seq<Dot>, prev: int, ender: int, i: int, k: int, j: int,
                                        ps: seq<Tree>, es: seq<Tree>, acc: seq<Tree>)
    requires Compiled(g, x.p, dots) && 0 <= prev < |dots| - 1 && dots[prev].Dot? && dots[prev].pos < |dots[prev].rhs|
    requires 0 <= ender < |dots| && x.p.steps[ender] == x.p.steps[prev] - |x.p.nts|
    requires AllItemTrees(g, x, dots, ps, prev, i, k) && AllItemTrees(g, x, dots, es, ender, k, j)
    requires AllItemTrees(g, x, dots, acc, prev + 1, i, j)
    ensures AllItemTrees(g, x, dots, Combine(ps, es, acc), prev + 1, i, j)
    decreases |es|
  {
    if es != [] {
      ExtendTrees(g, x, dots, prev, ender, i, k, j, ps, es[0], acc);
      hide Compiled;
      hide ItemTree;
      CombineTrees(g, x, dots, prev, ender, i, k, j, ps, es[1..], Extend(ps, es[0], acc));
    }
  }

  /** Whatever `deriv_trees` lists for a true item are trees of that item. */
  lemma {:induction false} TreesParse(g: Grammar, x: Source, dots: seq<Dot>, conf: int, i: nat, j: nat, fuel: nat)
    requires Compiled(g, x.p, dots) && ChartTrue(g, x, dots) && j < |x.states| && 0 <= conf < |x.p.steps|
    requires ItemTrue(g, x.toks, x.p, dots, conf, i, j)
    ensures var r := DerivTrees(x, conf, i, j, fuel);
            r.Some? ==> AllItemTrees(g, x, dots, r.value, conf, i, j)
    decreases fuel, 0
  {
    hide Compiled;
    hide ChartTrue;
    hide AllItemTrees;
    hide ItemTrue;
    hide AllIn;
    CompiledSizes(g, x.p, dots);
    if fuel > 0 {
      if x.p.names[conf].Name? {
        NamedTree(g, x, dots, conf, i, j, fuel);
      } else {
        UnnamedDot(g, x.p, dots, conf);
        NoItemTrees(g, x, dots, conf, i, j);
        TreesParseByEnder(g, x, dots, conf - 1, i, j, EndersAfter(x.p, conf - 1), [], fuel - 1);
      }
    }
  }

  lemma CompiledSizes(g: Grammar, p: Tables, dots: seq<Dot>)
    requires Compiled(g, p, dots)
    ensures InRange(p) && |p.names| == |p.steps| == |dots|
  {}

  ghost predicate AllIn(l: seq<int>, all: seq<int>) {
    forall t :: 0 <= t < |l| ==> l[t] in all
  }

  lemma NoItemTrees(g: Grammar, x: Source, dots: seq<Dot>, conf: int, i: int, j: int)
    ensures AllItemTrees(g, x, dots, [], conf, i, j)
  {}

  /** An unnamed configuration follows one of its rule. */
  lemma UnnamedDot(g: Grammar, p: Tables, dots: seq<Dot>, conf: int)
    requires Compiled(g, p, dots) && 0 <= conf < |p.steps| && p.names[conf] == NoName
    ensures |dots| == |p.steps| && 0 <= conf - 1 && dots[conf - 1].Dot? && dots[conf - 1].pos < |dots[conf - 1].rhs|
    ensures AllIn(EndersAfter(p, conf - 1), EndersAfter(p, conf - 1))
  {
    assert DotOk(g, p, dots, conf);
    assert DotOk(g, p, dots, conf - 1);
  }

  lemma NamedTree(g: Grammar, x: Source, dots: seq<Dot>, conf: int, i: nat, j: nat, fuel: nat)
    requires Compiled(g, x.p, dots) && j < |x.states| && 0 <= conf < |x.p.steps| && x.p.names[conf].Name?
    requires ItemTrue(g, x.toks, x.p, dots, conf, i, j) && fuel > 0
    ensures var r := DerivTrees(x, conf, i, j, fuel);
            r.Some? && AllItemTrees(g, x, dots, r.value, conf, i, j)
  {
    assert DotOk(g, x.p, dots, conf);
    if dots[conf].Dot? {
      var rhs := dots[conf].rhs;
      assert rhs[..0] == [];
      var h: nat :| DerivesAll(g, x.toks, rhs[..dots[conf].pos], i, j, h);
      assert i == j;
    }
  }

  lemma {:induction false} TreesParseByEnder(g: Grammar, x: Source, dots: seq<Dot>, prev: int, i: nat, j: nat, l: seq<int>,
                                             acc: seq<Tree>, fuel: nat)
    requires Compiled(g, x.p, dots) && ChartTrue(g, x, dots) && j < |x.states| && Within(l, |x.p.steps|)
    requires 0 <= prev < |dots| - 1 && dots[prev].Dot? && dots[prev].pos < |dots[prev].rhs|
    requires AllIn(l, EndersAfter(x.p, prev))
    requires AllItemTrees(g, x, dots, acc, prev + 1, i, j)
    ensures var r := TreesByEnder(x, prev, i, j, l, acc, fuel);
            r.Some? ==> AllItemTrees(g, x, dots, r.value, prev + 1, i, j)
    decreases fuel, 2, |l|
  {
    if l != [] {
      var ks := Positions(x, l[0], j);
      EnderStep(g, x.p, dots, prev, l[0]);
      TreesParseBySplit(g, x, dots, prev, l[0], i, j, ks, acc, fuel);
      var next := TreesBySplit(x, prev, l[0], i, j, ks, acc, fuel);
      hide Compiled;
      hide ChartTrue;
      hide AllItemTrees;
      if next.Some? {
        TreesParseByEnder(g, x, dots, prev, i, j, l[1..], next.value, fuel);
      }
    }
  }

  lemma EnderStep(g: Grammar, p: Tables, dots: seq<Dot>, prev: int, e: int)
    requires Compiled(g, p, dots) && 0 <= prev < |dots| && dots[prev].Dot? && dots[prev].pos < |dots[prev].rhs|
    requires e in EndersAfter(p, prev)
    ensures 0 <= e < |dots| && p.steps[e] == p.steps[prev] - |p.nts|
  {
    assert DotOk(g, p, dots, prev);
    assert ListsOk(p, dots, p.steps[prev]);
  }

  lemma {:induction false} TreesParseBySplit(g: Grammar, x: Source, dots: seq<Dot>, prev: int, ender: int, i: nat, j: nat,
                                             ks: seq<int>, acc: seq<Tree>, fuel: nat)
    requires Compiled(g, x.p, dots) && ChartTrue(g, x, dots) && j < |x.states| && Within(ks, j + 1)
    requires 0 <= prev < |dots| - 1 && dots[prev].Dot? && dots[prev].pos < |dots[prev].rhs|
    requires 0 <= ender < |dots| && x.p.steps[ender] == x.p.steps[prev] - |x.p.nts|
    requires forall t :: 0 <= t < |ks| ==> Holds(x, ender, ks[t], j)
    requires AllItemTrees(g, x, dots, acc, prev + 1, i, j)
    ensures var r := TreesBySplit(x, prev, ender, i, j, ks, acc, fuel);
            r.Some? ==> AllItemTrees(g, x, dots, r.value, prev + 1, i, j)
    decreases fuel, 1, |ks|
  {
    if ks != [] {
      hide AllItemTrees;
      if ks[0] >= i && Holds(x, prev, i, ks[0]) {
        var k: nat := ks[0];
        assert Holds(x, ender, k, j);
        TreesParse(g, x, dots, prev, i, k, fuel);
        TreesParse(g, x, dots, ender, k, j, fuel);
        hide ChartTrue;
        var ps, es := DerivTrees(x, prev, i, k, fuel), DerivTrees(x, ender, k, j, fuel);
        if ps.Some? && es.Some? {
          CombineTrees(g, x, dots, prev, ender, i, k, j, ps.value, es.value, acc);
          hide Compiled;
          TreesParseBySplit(g, x, dots, prev, ender, i, j, ks[1..], Combine(ps.value, es.value, acc), fuel);
        }
      } else {
        TreesParseBySplit(g, x, dots, prev, ender, i, j, ks[1..], acc, fuel);
      }
    }
  }

  // ---- the trees of a nonterminal

  /** The loop of `deriv_trees*` over the nonterminal's enders. */
  function TreesOf(x: Source, l: seq<int>, i: nat, j: nat, trees: seq<Tree>, fuel: nat): Option<seq<Tree>>
    requires InRange(x.p) && j < |x.states| && Within(l, |x.p.steps|)
    decreases |l|
  {
    if l == [] then Some(trees)
    else if Holds(x, l[0], i, j) then
      match DerivTrees(x, l[0], i, j, fuel)
      case None => None
      case Some(ts) => TreesOf(x, l[1..], i, j, ts + trees, fuel)
    else TreesOf(x, l[1..], i, j, trees, fuel)
  }

  /** The loop of `nb_deriv_trees*`. */
  function CountOf(x: Source, l: seq<int>, i: nat, j: nat, n: nat, fuel: nat): Option<nat>
    requires InRange(x.p) && j < |x.states| && Within(l, |x.p.steps|)
    decreases |l|
  {
    if l == [] then Some(n)
    else if Holds(x, l[0], i, j) then
      match NbDerivTrees(x, l[0], i, j, fuel)
      case None => None
      case Some(m) => CountOf(x, l[1..], i, j, m + n, fuel)
    else CountOf(x, l[1..], i, j, n, fuel)
  }

  lemma {:induction false} CountOfAgrees(x: Source, l: seq<int>, i: nat, j: nat, trees: seq<Tree>, fuel: nat)
    requires InRange(x.p) && NamesAgree(x.p) && j < |x.states| && Within(l, |x.p.steps|)
    ensures SameCount(TreesOf(x, l, i, j, trees, fuel), CountOf(x, l, i, j, |trees|, fuel))
    decreases |l|
  {
    if l != [] {
      if Holds(x, l[0], i, j) {
        CountAgrees(x, l[0], i, j, fuel);
        var ts := DerivTrees(x, l[0], i, j, fuel);
        if ts.Some? {
          CountOfAgrees(x, l[1..], i, j, ts.value + trees, fuel);
        }
      } else {
        CountOfAgrees(x, l[1..], i, j, trees, fuel);
      }
    }
  }

  ghost predicate AllParses(g: Grammar, toks: seq<Token>, trees: seq<Tree>, s: Symbol, i: int, j: int) {
    forall t :: 0 <= t < |trees| ==> IsParse(g, toks, trees[t], s, i, j)
  }

  lemma AllParsesJoined(g: Grammar, toks: seq<Token>, ts: seq<Tree>, trees: seq<Tree>, s: Symbol, i: int, j: int)
    requires AllParses(g, toks, ts, s, i, j) && AllParses(g, toks, trees, s, i, j)
    ensures AllParses(g, toks, ts + trees, s, i, j)
  {
    hide IsParse;
  }

  lemma EnderTrees(g: Grammar, x: Source, dots: seq<Dot>, nt: int, ender: int, i: nat, j: nat, ts: seq<Tree>)
    requires Compiled(g, x.p, dots) && 0 <= nt < |x.p.nts| && 0 <= ender < |x.p.steps| && x.p.steps[ender] == nt - |x.p.nts|
    requires AllItemTrees(g, x, dots, ts, ender, i, j)
    ensures AllParses(g, x.toks, ts, x.p.nts[nt], i, j)
  {
    forall t | 0 <= t < |ts|
      ensures IsParse(g, x.toks, ts[t], x.p.nts[nt], i, j)
    {
      EnderTree(g, x, dots, ender, i, j, ts[t]);
    }
  }

  /** The trees listed for a nonterminal are parses of it. */
  lemma {:induction false} TreesOfParse(g: Grammar, x: Source, dots: seq<Dot>, nt: int, l: seq<int>, i: nat, j: nat,
                                        trees: seq<Tree>, fuel: nat)
    requires Compiled(g, x.p, dots) && ChartTrue(g, x, dots) && j < |x.states| && 0 <= nt < |x.p.nts|
    requires Within(l, |x.p.steps|) && forall t :: 0 <= t < |l| ==> x.p.steps[l[t]] == nt - |x.p.nts|
    requires AllParses(g, x.toks, trees, x.p.nts[nt], i, j)
    ensures var r := TreesOf(x, l, i, j, trees, fuel);
            r.Some? ==> AllParses(g, x.toks, r.value, x.p.nts[nt], i, j)
    decreases |l|
  {
    if l != [] {
      if Holds(x, l[0], i, j) {
        TreesParse(g, x, dots, l[0], i, j, fuel);
        var ts := DerivTrees(x, l[0], i, j, fuel);
        hide AllParses;
        hide AllItemTrees;
        if ts.Some? {
          EnderTrees(g, x, dots, nt, l[0], i, j, ts.value);
          AllParsesJoined(g, x.toks, ts.value, trees, x.p.nts[nt], i, j);
          hide Compiled;
          hide ChartTrue;
          TreesOfParse(g, x, dots, nt, l[1..], i, j, ts.value + trees, fuel);
        }
      } else {
        TreesOfParse(g, x, dots, nt, l[1..], i, j, trees, fuel);
      }
    }
  }
}
