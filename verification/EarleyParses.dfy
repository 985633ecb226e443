/** Parse trees on their own: what they derive, how large they are, and which configuration and span a tree is of. */
module EarleyParses {
  import opened EarleyGrammar
  import opened EarleyTrees

  // ---- trees and derivations

  /** What a tree parses is derived. */
  lemma {:induction false} ParseDerives(g: Grammar, toks: seq<Token>, tree: Tree, s: Symbol, i: int, j: int)
    requires IsParse(g, toks, tree, s, i, j)
    ensures 0 <= i <= j <= |toks| && Derivable(g, toks, s, i, j)
    decreases tree
  {
    if tree.name.rule == 0 {
      TokenDerivable(g, toks, s, i);
    } else {
      var rhs :| IsAlternative(g, tree.name, rhs) && AreParses(g, toks, tree.kids, rhs, i, j);
      ParsesDerive(g, toks, tree.kids, rhs, i, j);
      RuleDerivable(g, toks, s, rhs, i, j);
    }
  }

  lemma {:induction false} ParsesDerive(g: Grammar, toks: seq<Token>, kids: seq<Tree>, rhs: seq<Symbol>, i: int, j: int)
    requires AreParses(g, toks, kids, rhs, i, j)
    ensures 0 <= i <= j <= |toks| && AllDerivable(g, toks, rhs, i, j)
    decreases kids
  {
    if kids == [] {
      EmptyDerivable(g, toks, i);
    } else {
      var last := |kids| - 1;
      var k :| AreParses(g, toks, kids[..last], rhs[..last], i, k) && IsParse(g, toks, kids[last], rhs[last], k, j);
      ParsesDerive(g, toks, kids[..last], rhs[..last], i, k);
      ParseDerives(g, toks, kids[last], rhs[last], k, j);
      SymbolAppended(g, toks, rhs[..last], rhs[last], i, k, j);
      assert rhs == rhs[..last] + [rhs[last]];
    }
  }

  /** What is derived has a parse. */
  lemma {:induction false} DerivedHasParse(g: Grammar, toks: seq<Token>, s: Symbol, i: nat, j: nat, h: nat) returns (t: Tree)
    requires Derives(g, toks, s, i, j, h)
    ensures IsParse(g, toks, t, s, i, j)
    decreases h, 0
  {
    if j == i + 1 && s in toks[i].kinds {
      t := Node(Name(s, 0), [Leaf(toks[i].value)]);
    } else {
      var rhs :| IsRule(g, s, rhs) && DerivesAll(g, toks, rhs, i, j, h - 1);
      var name := RuleNamed(g, s, rhs);
      var kids := DerivedHaveParses(g, toks, rhs, i, j, h - 1);
      t := Node(name, kids);
    }
  }

  lemma {:induction false} DerivedHaveParses(g: Grammar, toks: seq<Token>, rhs: seq<Symbol>, i: nat, j: nat, h: nat)
    returns (kids: seq<Tree>)
    requires DerivesAll(g, toks, rhs, i, j, h)
    ensures AreParses(g, toks, kids, rhs, i, j) && |kids| == |rhs|
    decreases h, 1 + |rhs|
  {
    if rhs == [] {
      kids := [];
    } else {
      var last := |rhs| - 1;
      var k: nat :| k <= j && DerivesAll(g, toks, rhs[..last], i, k, h) && Derives(g, toks, rhs[last], k, j, h);
      var front := DerivedHaveParses(g, toks, rhs[..last], i, k, h);
      var t := DerivedHasParse(g, toks, rhs[last], k, j, h);
      kids := ParsesJoined(g, toks, front, t, rhs, i, k, j);
    }
  }

  lemma ParsesJoined(g: Grammar, toks: seq<Token>, front: seq<Tree>, t: Tree, rhs: seq<Symbol>, i: int, k: int, j: int)
    returns (kids: seq<Tree>)
    requires rhs != [] && |front| == |rhs| - 1 && AreParses(g, toks, front, rhs[..|rhs| - 1], i, k)
    requires IsParse(g, toks, t, rhs[|rhs| - 1], k, j)
    ensures kids == front + [t] && AreParses(g, toks, kids, rhs, i, j)
  {
    kids := front + [t];
    assert kids[..|kids| - 1] == front;
  }

  /** Every true item has a tree. */
  lemma ItemHasTree(g: Grammar, x: Source, dots: seq<Dot>, c: int, i: nat, j: nat) returns (t: Tree)
    requires Compiled(g, x.p, dots) && ItemTrue(g, x.toks, x.p, dots, c, i, j)
    ensures ItemTree(g, x.toks, x.p, dots, t, c, i, j)
  {
    assert DotOk(g, x.p, dots, c);
    if dots[c].Tok? {
      t := Node(x.p.names[c], [Leaf(x.toks[i].value)]);
    } else {
      StartOfRule(g, x.p, dots, c);
      var rhs := dots[c].rhs[..dots[c].pos];
      var h: nat :| DerivesAll(g, x.toks, rhs, i, j, h);
      hide Compiled;
      var kids := DerivedHaveParses(g, x.toks, rhs, i, j, h);
      t := Node(x.p.names[c - dots[c].pos], kids);
    }
  }

  // ---- sizes

  /** The nodes and leaves of a tree. */
  ghost function Size(t: Tree): (n: nat)
    ensures n > 0
    decreases t
  {
    match t
    case Leaf(_) => 1
    case Node(_, kids) => 1 + SizeAll(kids)
  }

  ghost function SizeAll(kids: seq<Tree>): nat
    decreases kids
  {
    if kids == [] then 0 else SizeAll(kids[..|kids| - 1]) + Size(kids[|kids| - 1])
  }

  ghost function Leaves(t: Tree): nat
    decreases t
  {
    match t
    case Leaf(_) => 1
    case Node(_, kids) => LeavesAll(kids)
  }

  ghost function LeavesAll(kids: seq<Tree>): nat
    decreases kids
  {
    if kids == [] then 0 else LeavesAll(kids[..|kids| - 1]) + Leaves(kids[|kids| - 1])
  }

  lemma AppendedSize(p: Tree, e: Tree)
    requires p.Node?
    ensures Size(Appended(p, e)) == Size(p) + Size(e)
  {
    var kids := p.kids + [e];
    assert kids[..|kids| - 1] == p.kids;
  }

  /** The tokens that a tree parses are its leaves. */
  lemma {:induction false} ParseLeaves(g: Grammar, toks: seq<Token>, tree: Tree, s: Symbol, i: int, j: int)
    requires IsParse(g, toks, tree, s, i, j)
    ensures Leaves(tree) == j - i
    decreases tree
  {
    if tree.name.rule == 0 {
      var leaf := Leaf(toks[i].value);
      assert Leaves(leaf) == 1;
      assert tree.kids == [leaf] && tree.kids[..0] == [];
      assert LeavesAll(tree.kids) == LeavesAll(tree.kids[..0]) + Leaves(leaf);
    } else {
      var rhs :| IsAlternative(g, tree.name, rhs) && AreParses(g, toks, tree.kids, rhs, i, j);
      ParsesLeaves(g, toks, tree.kids, rhs, i, j);
    }
  }

  lemma {:induction false} ParsesLeaves(g: Grammar, toks: seq<Token>, kids: seq<Tree>, rhs: seq<Symbol>, i: int, j: int)
    requires AreParses(g, toks, kids, rhs, i, j)
    ensures LeavesAll(kids) == j - i
    decreases kids
  {
    if kids != [] {
      var last := |kids| - 1;
      var k :| AreParses(g, toks, kids[..last], rhs[..last], i, k) && IsParse(g, toks, kids[last], rhs[last], k, j);
      ParsesLeaves(g, toks, kids[..last], rhs[..last], i, k);
      ParseLeaves(g, toks, kids[last], rhs[last], k, j);
    }
  }

  // ---- whose tree it is

  /** Where the rule of a configuration begins; a token's configuration is its own. */
  ghost function RuleAt(dots: seq<Dot>, c: int): int
    requires 0 <= c < |dots|
  {
    if dots[c].Dot? then c - dots[c].pos else c
  }

  lemma ItemTreeName(g: Grammar, x: Source, dots: seq<Dot>, t: Tree, e: int, k: int, j: int)
    requires Compiled(g, x.p, dots) && ItemTree(g, x.toks, x.p, dots, t, e, k, j)
    ensures 0 <= RuleAt(dots, e) < |x.p.names| == |dots| && t.Node? && t.name.Name? && t.name == x.p.names[RuleAt(dots, e)]
  {
    assert DotOk(g, x.p, dots, e);
    if dots[e].Dot? {
      StartOfRule(g, x.p, dots, e);
    }
  }

  // ---- alternatives that a tree uses and that are given twice

  /** The symbols that trees are of. */
  ghost function Symbols(kids: seq<Tree>): seq<Symbol> {
    seq(|kids|, n requires 0 <= n < |kids| => SymbolOf(kids[n]))
  }

  ghost function SymbolOf(t: Tree): Symbol {
    if t.Node? && t.name.Name? then t.name.head else ""
  }

  /** Somewhere in the tree is an alternative that the grammar gives twice under one number. */
  ghost predicate Repeats(g: Grammar, t: Tree)
    decreases t
  {
    t.Node? && (GivenTwice(g, t.name, Symbols(t.kids)) || RepeatsBelow(g, t.kids))
  }

  ghost predicate RepeatsBelow(g: Grammar, kids: seq<Tree>)
    decreases kids
  {
    exists n :: 0 <= n < |kids| && Repeats(g, kids[n])
  }

  lemma RepeatsAppended(g: Grammar, kids: seq<Tree>, u: Tree)
    ensures RepeatsBelow(g, kids + [u]) <==> RepeatsBelow(g, kids) || Repeats(g, u)
  {
    hide Repeats;
    var all := kids + [u];
    if RepeatsBelow(g, kids) {
      var n :| 0 <= n < |kids| && Repeats(g, kids[n]);
      assert all[n] == kids[n];
    }
    if Repeats(g, u) {
      assert all[|kids|] == u;
    }
  }

  /** Trees tell the symbols that they parse. */
  lemma {:induction false} ParsesTell(g: Grammar, toks: seq<Token>, kids: seq<Tree>, rhs: seq<Symbol>, i: int, j: int)
    requires AreParses(g, toks, kids, rhs, i, j)
    ensures Symbols(kids) == rhs
    decreases |kids|
  {
    if kids != [] {
      var last := |kids| - 1;
      var k :| AreParses(g, toks, kids[..last], rhs[..last], i, k) && IsParse(g, toks, kids[last], rhs[last], k, j);
      ParsesTell(g, toks, kids[..last], rhs[..last], i, k);
      assert Symbols(kids) == Symbols(kids[..last]) + [rhs[last]];
      assert rhs == rhs[..last] + [rhs[last]];
    }
  }

  lemma CompleteKids(g: Grammar, x: Source, dots: seq<Dot>, t: Tree, e: int, k: int, j: int)
    requires Compiled(g, x.p, dots) && 0 <= e < |dots| && x.p.steps[e] < 0 && ItemTree(g, x.toks, x.p, dots, t, e, k, j)
    ensures var s := RuleAt(dots, e);
      0 <= s < |dots| && (dots[s].Dot? ==> t.Node? && AreParses(g, x.toks, t.kids, dots[s].rhs, k, j))
  {
    assert DotOk(g, x.p, dots, e);
    if dots[e].Dot? {
      StartOfRule(g, x.p, dots, e);
      assert dots[e].rhs[..dots[e].pos] == dots[e].rhs;
    }
  }

  /** The start of a completed configuration, from a tree of it. */
  lemma TreeStarts(g: Grammar, x: Source, dots: seq<Dot>, t: Tree, e: int, k: int, j: int)
    requires Compiled(g, x.p, dots) && 0 <= e < |dots| && x.p.steps[e] < 0 && ItemTree(g, x.toks, x.p, dots, t, e, k, j)
    ensures t.Node? && |dots| == |x.p.names|
    ensures dots[e].Dot? ==> BeginsRule(x.p, dots, t.name, Symbols(t.kids), RuleAt(dots, e)) && t.name.rule > 0
    ensures dots[e].Tok? ==> t.name.Name? && t.name.rule == 0 && e < |x.p.nts| && t.name.head == x.p.nts[e]
  {
    ItemTreeName(g, x, dots, t, e, k, j);
    assert DotOk(g, x.p, dots, e);
    if dots[e].Dot? {
      CompleteKids(g, x, dots, t, e, k, j);
      StartOfRule(g, x.p, dots, e);
      ParsesTell(g, x.toks, t.kids, dots[e].rhs, k, j);
    }
  }

  /** A completed configuration and the span are known from the tree, unless its alternative is given twice. */
  lemma TreeTells(g: Grammar, x: Source, dots: seq<Dot>, t: Tree, e: int, k: int, d: int, l: int, j: int)
    requires Compiled(g, x.p, dots) && Alike(g, x.p, dots) && 0 <= e < |dots| && 0 <= d < |dots|
    requires x.p.steps[e] < 0 && x.p.steps[d] < 0
    requires ItemTree(g, x.toks, x.p, dots, t, e, k, j) && ItemTree(g, x.toks, x.p, dots, t, d, l, j)
    ensures k == l && (e == d || GivenTwice(g, t.name, Symbols(t.kids)))
  {
    SpanTold(g, x, dots, t, e, k, d, l, j);
    TreeStarts(g, x, dots, t, e, k, j);
    TreeStarts(g, x, dots, t, d, l, j);
    hide ItemTree;
    hide Symbols;
    hide GivenTwice;
    EnderOfRule(g, x.p, dots, e);
    EnderOfRule(g, x.p, dots, d);
    hide BeginsRule;
    hide Compiled;
    var r, s := RuleAt(dots, e), RuleAt(dots, d);
    assert r != s ==> dots[e].Dot? && dots[d].Dot? ==> StartedTwice(x.p, dots, t.name, Symbols(t.kids));
  }

  lemma SpanTold(g: Grammar, x: Source, dots: seq<Dot>, t: Tree, e: int, k: int, d: int, l: int, j: int)
    requires Compiled(g, x.p, dots) && 0 <= e < |dots| && 0 <= d < |dots| && x.p.steps[e] < 0 && x.p.steps[d] < 0
    requires ItemTree(g, x.toks, x.p, dots, t, e, k, j) && ItemTree(g, x.toks, x.p, dots, t, d, l, j)
    ensures k == l
  {
    EnderTree(g, x, dots, e, k, j, t);
    EnderTree(g, x, dots, d, l, j, t);
    ParseLeaves(g, x.toks, t, x.p.nts[x.p.steps[e] + |x.p.nts|], k, j);
    ParseLeaves(g, x.toks, t, x.p.nts[x.p.steps[d] + |x.p.nts|], l, j);
  }

  lemma EnderOfRule(g: Grammar, p: Tables, dots: seq<Dot>, e: int)
    requires Compiled(g, p, dots) && 0 <= e < |dots| && p.steps[e] < 0
    ensures var s := RuleAt(dots, e);
      0 <= s < |dots| && (if dots[e].Dot? then dots[s].Dot? && e == s + |dots[s].rhs| else dots[s].Tok? && e == s)
  {
    assert DotOk(g, p, dots, e);
    if dots[e].Dot? {
      StartOfRule(g, p, dots, e);
    }
  }

  /** The tree of a completed configuration, from a parse of its nonterminal. */
  lemma ParseEnder(g: Grammar, x: Source, dots: seq<Dot>, nt: int, u: Tree, k: int, j: int) returns (e: int)
    requires Compiled(g, x.p, dots) && 0 <= nt < |x.p.nts| && IsParse(g, x.toks, u, x.p.nts[nt], k, j)
    ensures 0 <= e < |dots| && e in x.p.enders[nt] && x.p.steps[e] == nt - |x.p.nts|
    ensures ItemTree(g, x.toks, x.p, dots, u, e, k, j)
  {
    if u.name.rule == 0 {
      e := nt;
      assert DotOk(g, x.p, dots, nt);
      assert ListsOk(x.p, dots, nt);
    } else {
      var rhs :| IsAlternative(g, u.name, rhs) && AreParses(g, x.toks, u.kids, rhs, k, j);
      assert RuleListed(x.p, dots, u.name, rhs);
      var s :| BeginsRule(x.p, dots, u.name, rhs, s);
      hide *;
      e := RuleTree(g, x, dots, nt, s, u, k, j);
    }
  }

  /** The same, from the first configuration of the alternative. */
  lemma RuleTree(g: Grammar, x: Source, dots: seq<Dot>, nt: int, s: int, u: Tree, k: int, j: int) returns (e: int)
    requires Compiled(g, x.p, dots) && 0 <= nt < |x.p.nts| && |x.p.nts| <= s < |dots| && |x.p.names| == |dots|
    requires dots[s].Dot? && dots[s].pos == 0 && dots[s].head == x.p.nts[nt]
    requires u.Node? && u.name == x.p.names[s] && AreParses(g, x.toks, u.kids, dots[s].rhs, k, j)
    ensures e == s + |dots[s].rhs| && 0 <= e < |dots| && nt < |x.p.enders| && e in x.p.enders[nt]
    ensures |dots| <= |x.p.steps| && x.p.steps[e] == nt - |x.p.nts| && ItemTree(g, x.toks, x.p, dots, u, e, k, j)
  {
    var rhs := dots[s].rhs;
    RuleGoesOn(g, x.p, dots, s, |rhs|);
    e := s + |rhs|;
    EndOfRule(g, x.p, dots, e, nt);
    assert rhs[..|rhs|] == rhs;
    hide AreParses;
  }

  lemma {:induction false} RuleGoesOn(g: Grammar, p: Tables, dots: seq<Dot>, s: int, pos: nat)
    requires Compiled(g, p, dots) && |p.nts| <= s < |dots| && dots[s].Dot? && dots[s].pos == 0 && pos <= |dots[s].rhs|
    ensures s + pos < |dots| && dots[s + pos] == Dot(dots[s].head, dots[s].rhs, pos)
    decreases pos
  {
    if pos > 0 {
      RuleGoesOn(g, p, dots, s, pos - 1);
      assert DotOk(g, p, dots, s + pos - 1);
    }
  }

  /** A tree of a configuration inside a rule is the tree of the one before with the parse of one more symbol. */
  lemma TreeSplits(g: Grammar, x: Source, dots: seq<Dot>, t: Tree, conf: int, i: int, j: int)
    returns (p: Tree, u: Tree, e: int, k: int)
    requires Compiled(g, x.p, dots) && 0 <= conf < |x.p.steps| && x.p.names[conf] == NoName
    requires ItemTree(g, x.toks, x.p, dots, t, conf, i, j)
    ensures |dots| == |x.p.steps| && 0 < conf && p.Node? && t == Appended(p, u)
    ensures 0 <= e < |dots| && e in EndersAfter(x.p, conf - 1)
    ensures ItemTree(g, x.toks, x.p, dots, p, conf - 1, i, k) && ItemTree(g, x.toks, x.p, dots, u, e, k, j)
  {
    assert DotOk(g, x.p, dots, conf);
    assert DotOk(g, x.p, dots, conf - 1);
    var rhs, pos := dots[conf].rhs, dots[conf].pos;
    var done := rhs[..pos];
    LengthOfParses(g, x.toks, t.kids, done, i, j);
    k :| AreParses(g, x.toks, t.kids[..pos - 1], done[..pos - 1], i, k) && IsParse(g, x.toks, t.kids[pos - 1], done[pos - 1], k, j);
    assert done[..pos - 1] == rhs[..pos - 1];
    p, u := Node(t.name, t.kids[..pos - 1]), t.kids[pos - 1];
    assert t.kids == p.kids + [u];
    hide IsParse;
    hide AreParses;
    e := ParseEnder(g, x, dots, x.p.steps[conf - 1], u, k, j);
  }
}
