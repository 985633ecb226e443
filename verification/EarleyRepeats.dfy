/** Why a parse is listed more than once: exactly when it uses an alternative that the grammar gives twice. */
module EarleyRepeats {
  import opened EarleyGrammar
  import opened EarleyStates
  import opened EarleyTrees
  import opened EarleyParses
  import opened EarleyEnumeration
  import opened Options

  // ---- the loops put what they find before what they have

  lemma {:induction false} ExtendOnto(ps: seq<Tree>, e: Tree, acc: seq<Tree>)
    ensures Extend(ps, e, acc) == Extend(ps, e, []) + acc
    decreases |ps|
  {
    if ps == [] {
      assert Extend(ps, e, []) == [] && [] + acc == acc;
    } else {
      var first := [Appended(ps[0], e)];
      ExtendOnto(ps[1..], e, first + acc);
      ExtendOnto(ps[1..], e, first + []);
      assert Extend(ps[1..], e, []) + (first + acc) == (Extend(ps[1..], e, []) + (first + [])) + acc;
    }
  }

  lemma {:induction false} CombineOnto(ps: seq<Tree>, es: seq<Tree>, acc: seq<Tree>)
    ensures Combine(ps, es, acc) == Combine(ps, es, []) + acc
    decreases |es|
  {
    if es == [] {
      assert Combine(ps, es, []) == [] && [] + acc == acc;
    } else {
      var rest := Combine(ps, es[1..], []);
      ExtendOnto(ps, es[0], acc);
      var found := Extend(ps, es[0], []);
      CombineOnto(ps, es[1..], found + acc);
      CombineOnto(ps, es[1..], found);
      assert rest + (found + acc) == (rest + found) + acc;
    }
  }

  lemma FirstWithin(ks: seq<int>, n: int)
    requires ks != [] && Within(ks, n)
    ensures 0 <= ks[0] < n
  {}

  lemma {:induction false} BySplitOnto(x: Source, prev: int, e: int, i: nat, j: nat, ks: seq<int>, acc: seq<Tree>, fuel: nat)
    requires InRange(x.p) && j < |x.states| && 0 <= e < |x.p.steps| && 0 <= prev < |x.p.steps| && Within(ks, j + 1)
    requires TreesBySplit(x, prev, e, i, j, ks, acc, fuel).Some?
    ensures var r := TreesBySplit(x, prev, e, i, j, ks, [], fuel);
      r.Some? && TreesBySplit(x, prev, e, i, j, ks, acc, fuel).value == r.value + acc
    decreases |ks|
  {
    hide *;
    BySplitHas(x, prev, e, i, j, ks, acc, fuel, Leaf(""));
    BySplitSome(x, prev, e, i, j, ks, [], fuel);
    SplitUnfold(x, prev, e, i, j, ks, acc, fuel);
    SplitUnfold(x, prev, e, i, j, ks, [], fuel);
    assert [] + acc == acc;
    if ks != [] {
      FirstWithin(ks, j + 1);
      if ks[0] >= i && Holds(x, prev, i, ks[0]) {
        var ps, es := DerivTrees(x, prev, i, ks[0], fuel).value, DerivTrees(x, e, ks[0], j, fuel).value;
        var found := Combine(ps, es, []);
        CombineOnto(ps, es, acc);
        BySplitOnto(x, prev, e, i, j, ks[1..], found + acc, fuel);
        BySplitOnto(x, prev, e, i, j, ks[1..], found, fuel);
        var rest := TreesBySplit(x, prev, e, i, j, ks[1..], [], fuel).value;
        assert rest + (found + acc) == (rest + found) + acc;
      } else {
        BySplitOnto(x, prev, e, i, j, ks[1..], acc, fuel);
      }
    }
  }

  lemma {:induction false} ByEnderOnto(x: Source, prev: int, i: nat, j: nat, l: seq<int>, acc: seq<Tree>, fuel: nat)
    requires InRange(x.p) && j < |x.states| && Within(l, |x.p.steps|) && (l != [] ==> 0 <= prev < |x.p.steps|)
    requires TreesByEnder(x, prev, i, j, l, acc, fuel).Some?
    ensures var r := TreesByEnder(x, prev, i, j, l, [], fuel);
      r.Some? && TreesByEnder(x, prev, i, j, l, acc, fuel).value == r.value + acc
    decreases |l|
  {
    hide *;
    ByEnderHas(x, prev, i, j, l, acc, fuel, Leaf(""));
    ByEnderHas(x, prev, i, j, l, [], fuel, Leaf(""));
    EnderUnfold(x, prev, i, j, l, acc, fuel);
    EnderUnfold(x, prev, i, j, l, [], fuel);
    assert [] + acc == acc;
    if l != [] {
      var ks := Positions(x, l[0], j);
      BySplitOnto(x, prev, l[0], i, j, ks, acc, fuel);
      var found := TreesBySplit(x, prev, l[0], i, j, ks, [], fuel).value;
      ByEnderOnto(x, prev, i, j, l[1..], found + acc, fuel);
      ByEnderOnto(x, prev, i, j, l[1..], found, fuel);
      var rest := TreesByEnder(x, prev, i, j, l[1..], [], fuel).value;
      assert rest + (found + acc) == (rest + found) + acc;
    }
  }

  lemma {:induction false} TreesOfOnto(x: Source, l: seq<int>, i: nat, j: nat, trees: seq<Tree>, fuel: nat)
    requires InRange(x.p) && j < |x.states| && Within(l, |x.p.steps|) && TreesOf(x, l, i, j, trees, fuel).Some?
    ensures TreesOf(x, l, i, j, [], fuel).Some?
    ensures TreesOf(x, l, i, j, trees, fuel).value == TreesOf(x, l, i, j, [], fuel).value + trees
    decreases |l|
  {
    hide DerivTrees;
    hide Holds;
    hide InRange;
    if l != [] {
      var ts := if Holds(x, l[0], i, j) then DerivTrees(x, l[0], i, j, fuel).value else [];
      assert [] + trees == trees;
      TreesOfOnto(x, l[1..], i, j, ts + trees, fuel);
      TreesOfHas(x, l[1..], i, j, ts + [], fuel, Leaf(""));
      TreesOfHas(x, l[1..], i, j, ts + trees, fuel, Leaf(""));
      TreesOfOnto(x, l[1..], i, j, ts + [], fuel);
      var rest := TreesOf(x, l[1..], i, j, [], fuel).value;
      assert rest + (ts + trees) == (rest + (ts + [])) + trees;
    }
  }

  // ---- twins stay

  lemma TwinStays(ts: seq<Tree>, us: seq<Tree>)
    ensures !NoTwin(ts) || !NoTwin(us) ==> !NoTwin(ts + us)
  {
    var all := ts + us;
    if s, t :| 0 <= s < t < |ts| && ts[s] == ts[t] {
      assert all[s] == all[t];
    }
    if s, t :| 0 <= s < t < |us| && us[s] == us[t] {
      assert all[|ts| + s] == all[|ts| + t];
    }
  }

  lemma TwinInBoth(ts: seq<Tree>, us: seq<Tree>, t: Tree)
    requires t in ts && t in us
    ensures !NoTwin(ts + us)
  {
    var a :| 0 <= a < |ts| && ts[a] == t;
    var b :| 0 <= b < |us| && us[b] == t;
    assert (ts + us)[a] == (ts + us)[|ts| + b];
  }

  /** A twin is the head's, or the rest's. */
  lemma TwinOf(ts: seq<Tree>)
    requires !NoTwin(ts)
    ensures ts != [] && (ts[0] in ts[1..] || !NoTwin(ts[1..]))
  {
    var s, t :| 0 <= s < t < |ts| && ts[s] == ts[t];
    var rest := ts[1..];
    assert rest[t - 1] == ts[t];
    if s > 0 {
      assert rest[s - 1] == rest[t - 1];
    }
  }

  lemma {:induction false} ExtendTwin(ps: seq<Tree>, e: Tree, acc: seq<Tree>)
    requires !NoTwin(ps)
    ensures !NoTwin(Extend(ps, e, acc))
    decreases |ps|
  {
    hide NoTwin;
    TwinOf(ps);
    var rest, a := ps[1..], Appended(ps[0], e);
    if ps[0] in rest {
      JoinsIntro(rest, [e], ps[0], e);
      ExtendHas(rest, e, [], a);
      ExtendOnto(rest, e, [a] + acc);
      TwinInBoth(Extend(rest, e, []), [a] + acc, a);
    } else {
      ExtendTwin(rest, e, [a] + acc);
    }
  }

  /** A twin in either part makes one in what is combined. */
  lemma {:induction false} CombineTwin(ps: seq<Tree>, es: seq<Tree>, acc: seq<Tree>)
    requires ps != [] && es != [] && (!NoTwin(ps) || !NoTwin(es))
    ensures !NoTwin(Combine(ps, es, acc))
    decreases |es|
  {
    hide NoTwin;
    hide Joins;
    var rest, acc' := es[1..], Extend(ps, es[0], acc);
    CombineOnto(ps, rest, acc');
    if !NoTwin(ps) {
      ExtendTwin(ps, es[0], acc);
      TwinStays(Combine(ps, rest, []), acc');
    } else {
      TwinOf(es);
      if es[0] in rest {
        var a := Appended(ps[0], es[0]);
        JoinsIntro(ps, rest, ps[0], es[0]);
        JoinsIntro(ps, [es[0]], ps[0], es[0]);
        CombineHas(ps, rest, [], a);
        ExtendHas(ps, es[0], acc, a);
        TwinInBoth(Combine(ps, rest, []), acc', a);
      } else {
        TwinSome(rest);
        CombineTwin(ps, rest, acc');
      }
    }
  }

  lemma TwinSome(ts: seq<Tree>)
    requires !NoTwin(ts)
    ensures ts != []
  {}

  /** A twin made at one position stays to the end of the loop. */
  lemma {:induction false} BySplitTwin(x: Source, prev: int, e: int, i: nat, j: nat, ks: seq<int>, fuel: nat, k: nat)
    requires InRange(x.p) && j < |x.states| && 0 <= e < |x.p.steps| && 0 <= prev < |x.p.steps| && Within(ks, j + 1)
    requires TreesBySplit(x, prev, e, i, j, ks, [], fuel).Some? && k in ks && i <= k <= j && Holds(x, prev, i, k)
    requires PartsListed(x, prev, e, i, k, j, fuel)
    requires !NoTwin(Combine(DerivTrees(x, prev, i, k, fuel).value, DerivTrees(x, e, k, j, fuel).value, []))
    ensures !NoTwin(TreesBySplit(x, prev, e, i, j, ks, [], fuel).value)
    decreases |ks|
  {
    hide *;
    SplitUnfold(x, prev, e, i, j, ks, [], fuel);
    FirstWithin(ks, j + 1);
    var rest := ks[1..];
    if ks[0] >= i && Holds(x, prev, i, ks[0]) {
      var found := Combine(DerivTrees(x, prev, i, ks[0], fuel).value, DerivTrees(x, e, ks[0], j, fuel).value, []);
      BySplitOnto(x, prev, e, i, j, rest, found, fuel);
      if ks[0] != k {
        BySplitTwin(x, prev, e, i, j, rest, fuel, k);
      }
      TwinStays(TreesBySplit(x, prev, e, i, j, rest, [], fuel).value, found);
    } else {
      BySplitTwin(x, prev, e, i, j, rest, fuel, k);
    }
  }

  /** And so does one made for one ender. */
  lemma {:induction false} ByEnderTwin(x: Source, prev: int, i: nat, j: nat, l: seq<int>, fuel: nat, e: int)
    requires InRange(x.p) && j < |x.states| && Within(l, |x.p.steps|) && 0 <= prev < |x.p.steps|
    requires TreesByEnder(x, prev, i, j, l, [], fuel).Some? && e in l && 0 <= e < |x.p.steps|
    requires var r := TreesBySplit(x, prev, e, i, j, Positions(x, e, j), [], fuel);
      r.Some? && !NoTwin(r.value)
    ensures !NoTwin(TreesByEnder(x, prev, i, j, l, [], fuel).value)
    decreases |l|
  {
    hide *;
    EnderUnfold(x, prev, i, j, l, [], fuel);
    var found := TreesBySplit(x, prev, l[0], i, j, Positions(x, l[0], j), [], fuel).value;
    ByEnderOnto(x, prev, i, j, l[1..], found, fuel);
    if l[0] != e {
      ByEnderTwin(x, prev, i, j, l[1..], fuel, e);
    }
    TwinStays(TreesByEnder(x, prev, i, j, l[1..], [], fuel).value, found);
  }

  /** A tree that two enders build is listed for each. */
  lemma {:induction false} ByEnderAgain(x: Source, prev: int, i: nat, j: nat, l: seq<int>, fuel: nat, d: int, e: int, t: Tree)
    requires InRange(x.p) && j < |x.states| && Within(l, |x.p.steps|) && 0 <= prev < |x.p.steps|
    requires TreesByEnder(x, prev, i, j, l, [], fuel).Some? && d in l && e in l && d != e
    requires 0 <= d < |x.p.steps| && BuiltIn(x, prev, d, i, j, Positions(x, d, j), fuel, t)
    requires 0 <= e < |x.p.steps| && BuiltIn(x, prev, e, i, j, Positions(x, e, j), fuel, t)
    ensures !NoTwin(TreesByEnder(x, prev, i, j, l, [], fuel).value)
    decreases |l|
  {
    hide *;
    EnderUnfold(x, prev, i, j, l, [], fuel);
    var ks, rest := Positions(x, l[0], j), l[1..];
    var found := TreesBySplit(x, prev, l[0], i, j, ks, [], fuel).value;
    ByEnderOnto(x, prev, i, j, rest, found, fuel);
    var after := TreesByEnder(x, prev, i, j, rest, [], fuel).value;
    if l[0] == d || l[0] == e {
      var other := if l[0] == d then e else d;
      BySplitHas(x, prev, l[0], i, j, ks, [], fuel, t);
      ByEnderHas(x, prev, i, j, rest, [], fuel, t);
      BuiltByIntro(x, prev, i, j, rest, fuel, other, t);
      TwinInBoth(after, found, t);
    } else {
      ByEnderAgain(x, prev, i, j, rest, fuel, d, e, t);
      TwinStays(after, found);
    }
  }

  lemma BuiltByIntro(x: Source, prev: int, i: nat, j: nat, l: seq<int>, fuel: nat, e: int, t: Tree)
    requires InRange(x.p) && j < |x.states| && Within(l, |x.p.steps|) && (l != [] ==> 0 <= prev < |x.p.steps|)
    requires 0 <= prev < |x.p.steps| && e in l && 0 <= e < |x.p.steps| && BuiltIn(x, prev, e, i, j, Positions(x, e, j), fuel, t)
    ensures BuiltBy(x, prev, i, j, l, fuel, t)
  {
    hide BuiltIn;
    hide Positions;
    var s :| 0 <= s < |l| && l[s] == e;
  }

  // ---- a tree that repeats is listed again

  /** A twin in the trees of one part of a split is one in the trees of the item. */
  lemma TwinOfPart(x: Source, conf: int, i: nat, j: nat, fuel: nat, e: int, k: int)
    requires InRange(x.p) && 0 <= conf < |x.p.steps| && j < |x.states| && fuel > 0 && !x.p.names[conf].Name?
    requires DerivTrees(x, conf, i, j, fuel).Some? && SplitOf(x, conf, i, j, e, k)
    requires 0 < conf && 0 <= e < |x.p.steps| && 0 <= k <= j && PartsListed(x, conf - 1, e, i, k, j, fuel - 1)
    requires !NoTwin(Combine(DerivTrees(x, conf - 1, i, k, fuel - 1).value, DerivTrees(x, e, k, j, fuel - 1).value, []))
    ensures !NoTwin(DerivTrees(x, conf, i, j, fuel).value)
  {
    hide *;
    var l := DerivUnfold(x, conf, i, j, fuel);
    SplitOfParts(x, conf, i, j, e, k);
    SplitOfSome(x, conf, i, j, fuel, l, e);
    BySplitTwin(x, conf - 1, e, i, j, Positions(x, e, j), fuel - 1, k);
    ByEnderTwin(x, conf - 1, i, j, l, fuel - 1, e);
  }

  lemma SplitOfParts(x: Source, conf: int, i: nat, j: nat, e: int, k: int)
    requires InRange(x.p) && 0 <= conf < |x.p.steps| && j < |x.states| && SplitOf(x, conf, i, j, e, k)
    ensures 0 < conf && 0 <= e < |x.p.steps| && e in EndersAfter(x.p, conf - 1) && i <= k <= j
    ensures Holds(x, conf - 1, i, k) && k in Positions(x, e, j) && Within(Positions(x, e, j), j + 1)
  {}

  lemma SplitOfSome(x: Source, conf: int, i: nat, j: nat, fuel: nat, l: seq<int>, e: int)
    requires InRange(x.p) && 0 < conf < |x.p.steps| && j < |x.states| && fuel > 0 && l == EndersAfter(x.p, conf - 1)
    requires Within(l, |x.p.steps|) && 0 <= e < |x.p.steps| && e in l && Within(Positions(x, e, j), j + 1)
    requires TreesByEnder(x, conf - 1, i, j, l, [], fuel - 1).Some?
    ensures TreesBySplit(x, conf - 1, e, i, j, Positions(x, e, j), [], fuel - 1).Some?
  {
    hide *;
    ByEnderHas(x, conf - 1, i, j, l, [], fuel - 1, Leaf(""));
    EveryPartAt(x, conf - 1, i, j, l, fuel - 1, e);
    BySplitSome(x, conf - 1, e, i, j, Positions(x, e, j), [], fuel - 1);
  }

  lemma EveryPartAt(x: Source, prev: int, i: nat, j: nat, l: seq<int>, fuel: nat, e: int)
    requires InRange(x.p) && j < |x.states| && Within(l, |x.p.steps|) && (l != [] ==> 0 <= prev < |x.p.steps|)
    requires EveryPartListed(x, prev, i, j, l, fuel) && e in l && 0 <= e < |x.p.steps|
    ensures AllPartsListed(x, prev, e, i, j, Positions(x, e, j), fuel)
  {
    hide AllPartsListed;
    hide Positions;
    var s :| 0 <= s < |l| && l[s] == e;
  }

  /** Two enders with the same tree. */
  lemma TwinOfEnders(x: Source, conf: int, i: nat, j: nat, fuel: nat, d: int, e: int, k: int, p: Tree, u: Tree)
    requires InRange(x.p) && 0 <= conf < |x.p.steps| && j < |x.states| && fuel > 0 && !x.p.names[conf].Name?
    requires DerivTrees(x, conf, i, j, fuel).Some? && SplitOf(x, conf, i, j, d, k) && SplitOf(x, conf, i, j, e, k) && d != e
    requires 0 < conf && 0 <= d < |x.p.steps| && 0 <= e < |x.p.steps| && 0 <= k <= j
    requires PartsListed(x, conf - 1, d, i, k, j, fuel - 1) && PartsListed(x, conf - 1, e, i, k, j, fuel - 1)
    requires p in DerivTrees(x, conf - 1, i, k, fuel - 1).value
    requires u in DerivTrees(x, d, k, j, fuel - 1).value && u in DerivTrees(x, e, k, j, fuel - 1).value
    ensures !NoTwin(DerivTrees(x, conf, i, j, fuel).value)
  {
    hide *;
    var l := DerivUnfold(x, conf, i, j, fuel);
    var t := Appended(p, u);
    SplitOfParts(x, conf, i, j, d, k);
    SplitOfParts(x, conf, i, j, e, k);
    BuiltInIntro(x, conf - 1, d, i, j, Positions(x, d, j), fuel - 1, k, p, u);
    BuiltInIntro(x, conf - 1, e, i, j, Positions(x, e, j), fuel - 1, k, p, u);
    ByEnderAgain(x, conf - 1, i, j, l, fuel - 1, d, e, t);
  }

  lemma BuiltInIntro(x: Source, prev: int, e: int, i: nat, j: nat, ks: seq<int>, fuel: nat, k: int, p: Tree, u: Tree)
    requires InRange(x.p) && j < |x.states| && 0 <= e < |x.p.steps| && 0 <= prev < |x.p.steps| && Within(ks, j + 1)
    requires k in ks && i <= k <= j && Holds(x, prev, i, k) && PartsListed(x, prev, e, i, k, j, fuel)
    requires p in DerivTrees(x, prev, i, k, fuel).value && u in DerivTrees(x, e, k, j, fuel).value
    ensures BuiltIn(x, prev, e, i, j, ks, fuel, Appended(p, u))
  {
    hide DerivTrees;
    hide Holds;
    hide InRange;
    var s :| 0 <= s < |ks| && ks[s] == k;
    JoinsIntro(DerivTrees(x, prev, i, k, fuel).value, DerivTrees(x, e, k, j, fuel).value, p, u);
    hide Joins;
    assert BuiltAt(x, prev, e, i, ks[s], j, fuel, Appended(p, u));
  }

  /** Another configuration that completes the same alternative, given twice, has the same trees. */
  lemma SecondEnder(z: Charts, e: int, k: int, j: int, u: Tree) returns (d: int)
    requires Ready(z) && 0 <= e < |z.dots| && |z.x.p.steps| == |z.dots| && z.x.p.steps[e] < 0 && IsTree(z, u, e, k, j) && u.Node?
    requires GivenTwice(z.g, u.name, Symbols(u.kids))
    ensures 0 <= d < |z.dots| && d != e && z.x.p.steps[d] == z.x.p.steps[e] && IsTree(z, u, d, k, j)
  {
    var x := z.x;
    ReadyRange(z);
    hide Ready;
    hide IsParse;
    TreeStarts(z.g, x, z.dots, u, e, k, j);
    CompleteKids(z.g, x, z.dots, u, e, k, j);
    EnderOfRule(z.g, x.p, z.dots, e);
    EnderTree(z.g, x, z.dots, e, k, j, u);
    var rhs, s := Symbols(u.kids), RuleAt(z.dots, e);
    var c := OtherStart(z.g, x.p, z.dots, u.name, rhs, s);
    d := RuleTree(z.g, x, z.dots, x.p.steps[e] + |x.p.nts|, c, u, k, j);
    IsTreeIntro(z, u, d, k, j);
  }

  lemma OtherStart(g: Grammar, p: Tables, dots: seq<Dot>, name: Name, rhs: seq<Symbol>, s: int) returns (c: int)
    requires Alike(g, p, dots) && GivenTwice(g, name, rhs)
    ensures |dots| <= |p.names| && c != s && BeginsRule(p, dots, name, rhs, c)
  {
    hide GivenTwice;
    assert StartedTwice(p, dots, name, rhs);
    var a, b :| a < b && BeginsRule(p, dots, name, rhs, a) && BeginsRule(p, dots, name, rhs, b);
    c := if a == s then b else a;
  }

  lemma NamedNoRepeat(z: Charts, conf: int, i: int, j: int, t: Tree)
    requires Ready(z) && 0 <= conf < |z.x.p.steps| && z.x.p.names[conf].Name? && IsTree(z, t, conf, i, j) && t.Node?
    ensures !RepeatsBelow(z.g, t.kids)
  {
    assert DotOk(z.g, z.x.p, z.dots, conf);
    if z.dots[conf].Dot? {
      assert z.dots[conf].rhs[..0] == [];
      LengthOfParses(z.g, z.x.toks, t.kids, [], i, j);
    }
  }

  lemma RepeatsParts(g: Grammar, u: Tree)
    requires Repeats(g, u)
    ensures u.Node? && (GivenTwice(g, u.name, Symbols(u.kids)) || RepeatsBelow(g, u.kids))
  {}

  /** The split of a kept item's tree, with what is listed for its parts. */
  lemma SplitTree(z: Charts, conf: int, i: nat, j: nat, fuel: nat, e: int, k: int, p: Tree, u: Tree)
    requires Ready(z) && j < |z.x.states| && 0 < conf < |z.x.p.steps| && Held(z, conf, i, j) && Begun(z, conf, i)
    requires z.x.p.names[conf] == NoName && fuel > 0 && DerivTrees(z.x, conf, i, j, fuel).Some?
    requires InRange(z.x.p) && e in EndersAfter(z.x.p, conf - 1) && 0 <= e < |z.x.p.steps|
    requires IsTree(z, p, conf - 1, i, k) && IsTree(z, u, e, k, j)
    ensures i <= k <= j && SplitOf(z.x, conf, i, j, e, k) && PartsListed(z.x, conf - 1, e, i, k, j, fuel - 1)
    ensures Held(z, conf - 1, i, k) && Begun(z, conf - 1, i) && Held(z, e, k, j) && Begun(z, e, k)
    ensures DerivTrees(z.x, conf - 1, i, k, fuel - 1).Some? && DerivTrees(z.x, e, k, j, fuel - 1).Some?
    ensures p in DerivTrees(z.x, conf - 1, i, k, fuel - 1).value && u in DerivTrees(z.x, e, k, j, fuel - 1).value
  {
    hide *;
    ReadyRange(z);
    PartsHeld(z, conf, i, j, e, k, p, u);
    SplitTaken(z, conf, i, j, e, k);
    DerivHas(z.x, conf, i, j, fuel, p);
    PartsOf(z.x, conf, i, j, fuel - 1, e, k);
    BothListed(z.x, conf - 1, e, i, k, j, fuel - 1);
    TreeListed(z, conf - 1, i, k, fuel - 1, p);
    TreeListed(z, e, k, j, fuel - 1, u);
  }

  lemma BothListed(x: Source, prev: int, e: int, i: nat, k: nat, j: nat, fuel: nat)
    requires InRange(x.p) && k <= j < |x.states| && 0 <= e < |x.p.steps| && 0 <= prev < |x.p.steps|
    requires DerivTrees(x, prev, i, k, fuel).Some? && DerivTrees(x, e, k, j, fuel).Some?
    ensures PartsListed(x, prev, e, i, k, j, fuel)
  {}

  /** A kept item with a tree that repeats an alternative below its root: some tree is listed twice. */
  lemma {:induction false} RepeatTwin(z: Charts, conf: int, i: nat, j: nat, fuel: nat, t: Tree)
    requires Ready(z) && j < |z.x.states| && 0 <= conf < |z.x.p.steps| && Held(z, conf, i, j) && Begun(z, conf, i)
    requires DerivTrees(z.x, conf, i, j, fuel).Some? && IsTree(z, t, conf, i, j) && t.Node? && RepeatsBelow(z.g, t.kids)
    ensures !NoTwin(DerivTrees(z.x, conf, i, j, fuel).value)
    decreases fuel
  {
    hide *;
    ReadyRange(z);
    FuelLeft(z.x, conf, i, j, fuel);
    if z.x.p.names[conf].Name? {
      NamedNoRepeat(z, conf, i, j, t);
      assert false;
    } else {
      UnnamedIs(z.x.p, conf);
      IsTreeItem(z, t, conf, i, j);
      var p, u, e, k := TreeSplits(z.g, z.x, z.dots, t, conf, i, j);
      IsTreeIntro(z, p, conf - 1, i, k);
      IsTreeIntro(z, u, e, k, j);
      SplitTree(z, conf, i, j, fuel, e, k, p, u);
      AppendedKids(p, u);
      RepeatsAppended(z.g, p.kids, u);
      var ps, es := DerivTrees(z.x, conf - 1, i, k, fuel - 1).value, DerivTrees(z.x, e, k, j, fuel - 1).value;
      if RepeatsBelow(z.g, p.kids) {
        RepeatTwin(z, conf - 1, i, k, fuel - 1, p);
        CombineTwin(ps, es, []);
        TwinOfPart(z.x, conf, i, j, fuel, e, k);
      } else {
        RepeatsParts(z.g, u);
        if RepeatsBelow(z.g, u.kids) {
          RepeatTwin(z, e, k, j, fuel - 1, u);
          CombineTwin(ps, es, []);
          TwinOfPart(z.x, conf, i, j, fuel, e, k);
        } else {
          var d := OtherEnderAfter(z, conf, e, k, j, u);
          SplitTree(z, conf, i, j, fuel, d, k, p, u);
          TwinOfEnders(z.x, conf, i, j, fuel, d, e, k, p, u);
        }
      }
    }
  }

  lemma OtherEnderAfter(z: Charts, conf: int, e: int, k: int, j: int, u: Tree) returns (d: int)
    requires Ready(z) && 0 < conf < |z.x.p.steps| && z.x.p.names[conf] == NoName && InRange(z.x.p)
    requires e in EndersAfter(z.x.p, conf - 1) && 0 <= e < |z.x.p.steps| && IsTree(z, u, e, k, j) && u.Node?
    requires GivenTwice(z.g, u.name, Symbols(u.kids))
    ensures 0 <= d < |z.x.p.steps| && d != e && d in EndersAfter(z.x.p, conf - 1) && IsTree(z, u, d, k, j)
  {
    hide *;
    ReadyRange(z);
    UnnamedDot(z.g, z.x.p, z.dots, conf);
    EnderStep(z.g, z.x.p, z.dots, conf - 1, e);
    WaitsFor(z.g, z.x.p, z.dots, conf - 1);
    d := SecondEnder(z, e, k, j, u);
    SameStep(z.g, z.x.p, z.dots, conf - 1, d);
  }

  lemma WaitsFor(g: Grammar, p: Tables, dots: seq<Dot>, prev: int)
    requires Compiled(g, p, dots) && 0 <= prev < |dots| && dots[prev].Dot? && dots[prev].pos < |dots[prev].rhs|
    ensures |p.steps| == |dots| && p.steps[prev] < |p.nts|
  {
    assert DotOk(g, p, dots, prev);
  }

  lemma SameStep(g: Grammar, p: Tables, dots: seq<Dot>, prev: int, d: int)
    requires Compiled(g, p, dots) && 0 <= prev < |dots| && dots[prev].Dot? && dots[prev].pos < |dots[prev].rhs|
    requires 0 <= d < |dots| && |p.steps| == |dots| && p.steps[d] == p.steps[prev] - |p.nts|
    ensures InRange(p) && d in EndersAfter(p, prev)
  {
    assert DotOk(g, p, dots, prev);
    assert ListsOk(p, dots, p.steps[prev]);
  }

  // ---- the goal

  /** A twin in the trees of one ender stays. */
  lemma {:induction false} TreesOfTwin(x: Source, l: seq<int>, i: nat, j: nat, trees: seq<Tree>, fuel: nat, e: int)
    requires InRange(x.p) && j < |x.states| && Within(l, |x.p.steps|) && TreesOf(x, l, i, j, trees, fuel).Some?
    requires e in l && 0 <= e < |x.p.steps| && Holds(x, e, i, j)
    requires DerivTrees(x, e, i, j, fuel).Some? && !NoTwin(DerivTrees(x, e, i, j, fuel).value)
    ensures !NoTwin(TreesOf(x, l, i, j, trees, fuel).value)
    decreases |l|
  {
    hide *;
    TreesOfUnfold(x, l, i, j, trees, fuel);
    FirstWithin(l, |x.p.steps|);
    if l[0] == e {
      var ts := DerivTrees(x, e, i, j, fuel).value;
      TreesOfOnto(x, l[1..], i, j, ts + trees, fuel);
      TwinStays(ts, trees);
      TwinStays(TreesOf(x, l[1..], i, j, [], fuel).value, ts + trees);
    } else if Holds(x, l[0], i, j) {
      TreesOfTwin(x, l[1..], i, j, DerivTrees(x, l[0], i, j, fuel).value + trees, fuel, e);
    } else {
      TreesOfTwin(x, l[1..], i, j, trees, fuel, e);
    }
  }

  ghost predicate ListedAtEnder(x: Source, e: int, i: nat, j: nat, fuel: nat, t: Tree)
    requires InRange(x.p) && j < |x.states|
  {
    && 0 <= e < |x.p.steps| && Holds(x, e, i, j) && DerivTrees(x, e, i, j, fuel).Some?
    && t in DerivTrees(x, e, i, j, fuel).value
  }

  /** A tree that is listed for two enders is listed twice. */
  lemma {:induction false} TreesOfAgain(x: Source, l: seq<int>, i: nat, j: nat, trees: seq<Tree>, fuel: nat, d: int, e: int, t: Tree)
    requires InRange(x.p) && j < |x.states| && Within(l, |x.p.steps|) && TreesOf(x, l, i, j, trees, fuel).Some?
    requires d in l && e in l && d != e && ListedAtEnder(x, d, i, j, fuel, t) && ListedAtEnder(x, e, i, j, fuel, t)
    ensures !NoTwin(TreesOf(x, l, i, j, trees, fuel).value)
    decreases |l|
  {
    hide *;
    TreesOfUnfold(x, l, i, j, trees, fuel);
    FirstWithin(l, |x.p.steps|);
    var rest := l[1..];
    if l[0] == d || l[0] == e {
      ListedParts(x, l[0], i, j, fuel, t);
      var ts := DerivTrees(x, l[0], i, j, fuel).value;
      TreesOfOnto(x, rest, i, j, ts + trees, fuel);
      TreesOfHas(x, rest, i, j, [], fuel, t);
      ListedForOne(x, rest, i, j, fuel, if l[0] == d then e else d, t);
      TwinInBoth(TreesOf(x, rest, i, j, [], fuel).value, ts + trees, t);
    } else if Holds(x, l[0], i, j) {
      TreesOfAgain(x, rest, i, j, DerivTrees(x, l[0], i, j, fuel).value + trees, fuel, d, e, t);
    } else {
      TreesOfAgain(x, rest, i, j, trees, fuel, d, e, t);
    }
  }

  lemma ListedParts(x: Source, e: int, i: nat, j: nat, fuel: nat, t: Tree)
    requires InRange(x.p) && j < |x.states| && ListedAtEnder(x, e, i, j, fuel, t)
    ensures 0 <= e < |x.p.steps| && Holds(x, e, i, j) && DerivTrees(x, e, i, j, fuel).Some?
    ensures t in DerivTrees(x, e, i, j, fuel).value
  {
    hide DerivTrees;
    hide Holds;
  }

  lemma ListedForOne(x: Source, l: seq<int>, i: nat, j: nat, fuel: nat, e: int, t: Tree)
    requires InRange(x.p) && j < |x.states| && Within(l, |x.p.steps|) && e in l && ListedAtEnder(x, e, i, j, fuel, t)
    ensures ListedFor(x, l, i, j, fuel, t)
  {
    hide DerivTrees;
    hide Holds;
    var s :| 0 <= s < |l| && l[s] == e;
    ListedForIntro(x, l, i, j, fuel, s, t);
  }

  /** A kept ender lists its trees. */
  lemma SpanEnderLists(z: Charts, w: Query, e: int, fuel: nat, t: Tree)
    requires Asked(z, w) && SpanTrees(z, w, fuel).Some? && w.nt < |z.x.p.enders| && e in z.x.p.enders[w.nt]
    requires IsTree(z, t, e, w.i, w.j) && Held(z, e, w.i, w.j) && Begun(z, e, w.i)
    ensures InRange(z.x.p) && w.j < |z.x.states| && ListedAtEnder(z.x, e, w.i, w.j, fuel, t)
  {
    hide *;
    AskedParts(z, w);
    var l, i, j := z.x.p.enders[w.nt], w.i, w.j;
    SpanUnfold(z, w, fuel);
    ReadyRange(z);
    BegunRange(z, e, w.i);
    TreesOfHas(z.x, l, i, j, [], fuel, t);
    HeldHolds(z, e, i, j);
    var s :| 0 <= s < |l| && l[s] == e;
    ListedAt(z.x, l, i, j, fuel, s);
    TreeListed(z, e, i, j, fuel, t);
    ListedIntro(z.x, e, i, j, fuel, t);
  }

  lemma ListedIntro(x: Source, e: int, i: nat, j: nat, fuel: nat, t: Tree)
    requires InRange(x.p) && j < |x.states| && 0 <= e < |x.p.steps| && Holds(x, e, i, j)
    requires DerivTrees(x, e, i, j, fuel).Some? && t in DerivTrees(x, e, i, j, fuel).value
    ensures ListedAtEnder(x, e, i, j, fuel, t)
  {}

  /** A parse that repeats an alternative: some parse is listed twice. */
  lemma SpanTwin(z: Charts, w: Query, fuel: nat, t: Tree)
    requires Asked(z, w) && SpanTrees(z, w, fuel).Some? && SpanParse(z, w, t) && Repeats(z.g, t)
    ensures !NoTwin(SpanTrees(z, w, fuel).value)
  {
    hide *;
    AskedParts(z, w);
    var i, j := w.i, w.j;
    SpanUnfold(z, w, fuel);
    SpanRange(z, w);
    ReadyRange(z);
    RepeatsParts(z.g, t);
    var e := SpanParseHeld(z, w, t);
    SpanEnderLists(z, w, e, fuel, t);
    ListedParts(z.x, e, i, j, fuel, t);
    if RepeatsBelow(z.g, t.kids) {
      RepeatTwin(z, e, i, j, fuel, t);
      TreesOfTwin(z.x, z.x.p.enders[w.nt], i, j, [], fuel, e);
    } else {
      EnderOfSpan(z, w, e);
      var d := SecondEnder(z, e, i, j, t);
      EnderOfSpan(z, w, d);
      AskedHeld(z, w, d, t);
      SpanEnderLists(z, w, d, fuel, t);
      TreesOfAgain(z.x, z.x.p.enders[w.nt], i, j, [], fuel, d, e, t);
    }
  }

  lemma EnderOfSpan(z: Charts, w: Query, e: int)
    requires Asked(z, w) && 0 <= e < |z.dots|
    ensures |z.dots| == |z.x.p.steps| && w.nt < |z.x.p.enders|
    ensures e in z.x.p.enders[w.nt] <==> z.x.p.steps[e] == w.nt - |z.x.p.nts|
  {
    assert ListsOk(z.x.p, z.dots, w.nt);
  }

  /** `deriv_trees*` lists each parse once if and only if none of them uses, at any depth, an
      alternative that the grammar gives twice under one number. */
  lemma OnceExactly(z: Charts, w: Query, fuel: nat)
    requires Asked(z, w) && SpanTrees(z, w, fuel).Some?
    ensures NoTwin(SpanTrees(z, w, fuel).value) <==> forall t :: SpanParse(z, w, t) ==> !Repeats(z.g, t)
  {
    hide *;
    AskedParts(z, w);
    if forall t :: SpanParse(z, w, t) ==> !Repeats(z.g, t) {
      ListsOnce(z, w, fuel);
    } else {
      var t :| SpanParse(z, w, t) && Repeats(z.g, t);
      SpanTwin(z, w, fuel, t);
    }
  }

  // ---- the number of parses

  ghost predicate AllParsesAre(z: Charts, w: Query, all: set<Tree>)
    requires w.nt < |z.x.p.nts|
  {
    forall t :: t in all <==> SpanParse(z, w, t)
  }

  /** The trees listed, as a set: as many as there are places, exactly when none is listed twice. */
  lemma {:induction false} TreeSet(ts: seq<Tree>) returns (all: set<Tree>)
    ensures |all| <= |ts| && (|all| == |ts| <==> NoTwin(ts)) && forall t :: t in all <==> t in ts
    decreases |ts|
  {
    if ts == [] {
      all := {};
    } else {
      var rest := TreeSet(ts[1..]);
      all := rest + {ts[0]};
      if NoTwin(ts) {
        assert NoTwin(ts[1..]);
        assert ts[0] !in rest;
      } else {
        TwinOf(ts);
        assert ts[0] in rest ==> all == rest;
      }
    }
  }

  /** What `nb_deriv_trees*` answers is at least the number of parses, and that number exactly when
      no parse uses an alternative that is given twice. */
  lemma CountsParses(z: Charts, w: Query, fuel: nat) returns (all: set<Tree>)
    requires Asked(z, w) && InRange(z.x.p) && w.j < |z.x.states|
    requires w.nt < |z.x.p.enders| && Within(z.x.p.enders[w.nt], |z.x.p.steps|)
    requires CountOf(z.x, z.x.p.enders[w.nt], w.i, w.j, 0, fuel).Some?
    ensures AllParsesAre(z, w, all)
    ensures var n := CountOf(z.x, z.x.p.enders[w.nt], w.i, w.j, 0, fuel).value;
      |all| <= n && (|all| == n <==> forall t :: SpanParse(z, w, t) ==> !Repeats(z.g, t))
  {
    hide *;
    AskedParts(z, w);
    ReadyRange(z);
    CompiledNamesAgree(z.g, z.x.p, z.dots);
    SpanUnfold(z, w, fuel);
    CountOfAgrees(z.x, z.x.p.enders[w.nt], w.i, w.j, [], fuel);
    SameCountIs(SpanTrees(z, w, fuel), CountOf(z.x, z.x.p.enders[w.nt], w.i, w.j, 0, fuel));
    ListsParses(z, w, fuel);
    OnceExactly(z, w, fuel);
    all := TreeSet(SpanTrees(z, w, fuel).value);
    AllParsesIntro(z, w, all);
  }

  lemma SameCountIs(trees: Option<seq<Tree>>, n: Option<nat>)
    requires SameCount(trees, n)
    ensures trees.Some? <==> n.Some?
    ensures n.Some? ==> n.value == |trees.value|
  {}

  lemma AllParsesIntro(z: Charts, w: Query, all: set<Tree>)
    requires w.nt < |z.x.p.nts| && forall t :: t in all <==> SpanParse(z, w, t)
    ensures AllParsesAre(z, w, all)
  {}
}
