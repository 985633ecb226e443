/** What `deriv_trees` lists: on the filtered chart every parse, and every one once; and when it ends. */
module EarleyEnumeration {
  import opened EarleyGrammar
  import opened EarleyStates
  import opened EarleyTrees
  import opened EarleyParses
  import opened Options
  import EarleyFilter

  // ---- more depth changes no answer

  lemma {:induction false} MoreFuel(x: Source, conf: int, i: nat, j: nat, fuel: nat, more: nat)
    requires InRange(x.p) && 0 <= conf < |x.p.steps| && j < |x.states| && fuel <= more
    requires DerivTrees(x, conf, i, j, fuel).Some?
    ensures DerivTrees(x, conf, i, j, more) == DerivTrees(x, conf, i, j, fuel)
    decreases fuel, 0
  {
    hide *;
    FuelLeft(x, conf, i, j, fuel);
    AsManyNames(x.p);
    if x.p.names[conf].Name? {
      NamedSame(x, conf, i, j, fuel, more);
    } else {
      var l := DerivUnfold(x, conf, i, j, fuel);
      var m := DerivUnfold(x, conf, i, j, more);
      MoreFuelByEnder(x, conf - 1, i, j, l, [], fuel - 1, more - 1);
    }
  }

  lemma AsManyNames(p: Tables)
    requires InRange(p)
    ensures |p.names| == |p.steps|
  {}

  lemma NamedSame(x: Source, conf: int, i: nat, j: nat, fuel: nat, more: nat)
    requires InRange(x.p) && 0 <= conf < |x.p.steps| && j < |x.states| && 0 < fuel <= more && x.p.names[conf].Name?
    ensures DerivTrees(x, conf, i, j, more) == DerivTrees(x, conf, i, j, fuel)
  {}

  lemma {:induction false} MoreFuelByEnder(x: Source, prev: int, i: nat, j: nat, l: seq<int>, acc: seq<Tree>, fuel: nat, more: nat)
    requires InRange(x.p) && j < |x.states| && Within(l, |x.p.steps|) && (l != [] ==> 0 <= prev < |x.p.steps|)
    requires fuel <= more && TreesByEnder(x, prev, i, j, l, acc, fuel).Some?
    ensures TreesByEnder(x, prev, i, j, l, acc, more) == TreesByEnder(x, prev, i, j, l, acc, fuel)
    decreases fuel, 2, |l|
  {
    if l != [] {
      var ks := Positions(x, l[0], j);
      MoreFuelBySplit(x, prev, l[0], i, j, ks, acc, fuel, more);
      var next := TreesBySplit(x, prev, l[0], i, j, ks, acc, fuel);
      MoreFuelByEnder(x, prev, i, j, l[1..], next.value, fuel, more);
    }
  }

  lemma {:induction false} MoreFuelBySplit(x: Source, prev: int, ender: int, i: nat, j: nat, ks: seq<int>, acc: seq<Tree>,
                                           fuel: nat, more: nat)
    requires InRange(x.p) && j < |x.states| && 0 <= ender < |x.p.steps| && 0 <= prev < |x.p.steps| && Within(ks, j + 1)
    requires fuel <= more && TreesBySplit(x, prev, ender, i, j, ks, acc, fuel).Some?
    ensures TreesBySplit(x, prev, ender, i, j, ks, acc, more) == TreesBySplit(x, prev, ender, i, j, ks, acc, fuel)
    decreases fuel, 1, |ks|
  {
    if ks != [] {
      if ks[0] >= i && Holds(x, prev, i, ks[0]) {
        var k: nat := ks[0];
        MoreFuel(x, prev, i, k, fuel, more);
        MoreFuel(x, ender, k, j, fuel, more);
        var ps, es := DerivTrees(x, prev, i, k, fuel), DerivTrees(x, ender, k, j, fuel);
        MoreFuelBySplit(x, prev, ender, i, j, ks[1..], Combine(ps.value, es.value, acc), fuel, more);
      } else {
        MoreFuelBySplit(x, prev, ender, i, j, ks[1..], acc, fuel, more);
      }
    }
  }

  // ---- what the loops build

  ghost predicate NoTwin(ts: seq<Tree>) {
    forall s, t :: 0 <= s < t < |ts| ==> ts[s] != ts[t]
  }

  ghost predicate AllNodes(ts: seq<Tree>) {
    forall t :: t in ts ==> t.Node?
  }

  /** `t` is made of one of `ps` and, as its last subtree, one of `es`. */
  ghost predicate Joins(ps: seq<Tree>, es: seq<Tree>, t: Tree) {
    exists p, e :: p in ps && e in es && t == Appended(p, e)
  }

  lemma JoinsIntro(ps: seq<Tree>, es: seq<Tree>, p: Tree, e: Tree)
    requires p in ps && e in es
    ensures Joins(ps, es, Appended(p, e))
  {}

  lemma {:induction false} ExtendHas(ps: seq<Tree>, e: Tree, acc: seq<Tree>, t: Tree)
    ensures t in Extend(ps, e, acc) <==> t in acc || Joins(ps, [e], t)
    decreases |ps|
  {
    if ps != [] {
      assert ps == [ps[0]] + ps[1..];
      ExtendHas(ps[1..], e, [Appended(ps[0], e)] + acc, t);
    }
  }

  lemma {:induction false} CombineHas(ps: seq<Tree>, es: seq<Tree>, acc: seq<Tree>, t: Tree)
    ensures t in Combine(ps, es, acc) <==> t in acc || Joins(ps, es, t)
    decreases |es|
  {
    if es != [] {
      assert es == [es[0]] + es[1..];
      ExtendHas(ps, es[0], acc, t);
      CombineHas(ps, es[1..], Extend(ps, es[0], acc), t);
      if Joins(ps, es, t) {
        var p, e :| p in ps && e in es && t == Appended(p, e);
        if e == es[0] {
          JoinsIntro(ps, [es[0]], p, e);
        } else {
          JoinsIntro(ps, es[1..], p, e);
        }
      }
    }
  }

  /** A tree's last subtree is none of these. */
  ghost predicate LastNotIn(t: Tree, es: seq<Tree>) {
    t.Node? && t.kids != [] && t.kids[|t.kids| - 1] !in es
  }

  ghost predicate LastsNotIn(ts: seq<Tree>, es: seq<Tree>) {
    forall t :: t in ts ==> LastNotIn(t, es)
  }

  lemma {:induction false} ExtendNoTwin(ps: seq<Tree>, e: Tree, acc: seq<Tree>)
    requires NoTwin(ps) && AllNodes(ps) && NoTwin(acc) && forall p :: p in ps ==> Appended(p, e) !in acc
    ensures NoTwin(Extend(ps, e, acc))
    decreases |ps|
  {
    if ps != [] {
      var a := Appended(ps[0], e);
      forall p | p in ps[1..]
        ensures Appended(p, e) !in [a] + acc
      {
        assert p != ps[0];
        assert p.kids == Appended(p, e).kids[..|p.kids|] && ps[0].kids == a.kids[..|ps[0].kids|];
      }
      ExtendNoTwin(ps[1..], e, [a] + acc);
    }
  }

  lemma {:induction false} CombineNoTwin(ps: seq<Tree>, es: seq<Tree>, acc: seq<Tree>)
    requires NoTwin(ps) && AllNodes(ps) && NoTwin(es) && NoTwin(acc) && LastsNotIn(acc, es)
    ensures NoTwin(Combine(ps, es, acc))
    decreases |es|
  {
    if es != [] {
      var acc' := Extend(ps, es[0], acc);
      forall p | p in ps
        ensures Appended(p, es[0]) !in acc
      {
        assert Appended(p, es[0]).kids[|p.kids|] == es[0];
      }
      ExtendNoTwin(ps, es[0], acc);
      forall t | t in acc'
        ensures LastNotIn(t, es[1..])
      {
        ExtendHas(ps, es[0], acc, t);
        if t in acc {
          assert LastNotIn(t, es);
        } else {
          var p, e :| p in ps && e in [es[0]] && t == Appended(p, e);
          assert t.kids[|t.kids| - 1] == es[0];
        }
      }
      CombineNoTwin(ps, es[1..], acc');
    }
  }

  ghost predicate PartsListed(x: Source, prev: int, ender: int, i: nat, k: nat, j: nat, fuel: nat)
    requires InRange(x.p) && k <= j < |x.states| && 0 <= ender < |x.p.steps| && 0 <= prev < |x.p.steps|
  {
    DerivTrees(x, prev, i, k, fuel).Some? && DerivTrees(x, ender, k, j, fuel).Some?
  }

  /** `t` is built at the split `k`. */
  ghost predicate BuiltAt(x: Source, prev: int, ender: int, i: nat, k: nat, j: nat, fuel: nat, t: Tree)
    requires InRange(x.p) && k <= j < |x.states| && 0 <= ender < |x.p.steps| && 0 <= prev < |x.p.steps|
  {
    && PartsListed(x, prev, ender, i, k, j, fuel)
    && Joins(DerivTrees(x, prev, i, k, fuel).value, DerivTrees(x, ender, k, j, fuel).value, t)
  }

  /** `t` is built at one of these positions. */
  ghost predicate BuiltIn(x: Source, prev: int, ender: int, i: nat, j: nat, ks: seq<int>, fuel: nat, t: Tree)
    requires InRange(x.p) && j < |x.states| && 0 <= ender < |x.p.steps| && 0 <= prev < |x.p.steps| && Within(ks, j + 1)
  {
    exists s :: 0 <= s < |ks| && ks[s] >= i && Holds(x, prev, i, ks[s]) && BuiltAt(x, prev, ender, i, ks[s], j, fuel, t)
  }

  ghost predicate AllPartsListed(x: Source, prev: int, ender: int, i: nat, j: nat, ks: seq<int>, fuel: nat)
    requires InRange(x.p) && j < |x.states| && 0 <= ender < |x.p.steps| && 0 <= prev < |x.p.steps| && Within(ks, j + 1)
  {
    forall s :: 0 <= s < |ks| && ks[s] >= i && Holds(x, prev, i, ks[s]) ==> PartsListed(x, prev, ender, i, ks[s], j, fuel)
  }

  lemma BuiltInStep(x: Source, prev: int, ender: int, i: nat, j: nat, ks: seq<int>, fuel: nat, t: Tree)
    requires InRange(x.p) && j < |x.states| && 0 <= ender < |x.p.steps| && 0 <= prev < |x.p.steps| && Within(ks, j + 1)
    requires ks != []
    ensures Within(ks[1..], j + 1)
    ensures BuiltIn(x, prev, ender, i, j, ks, fuel, t) <==>
      || (ks[0] >= i && Holds(x, prev, i, ks[0]) && BuiltAt(x, prev, ender, i, ks[0], j, fuel, t))
      || BuiltIn(x, prev, ender, i, j, ks[1..], fuel, t)
  {
    hide BuiltAt;
    if BuiltIn(x, prev, ender, i, j, ks, fuel, t) {
      var s :| 0 <= s < |ks| && ks[s] >= i && Holds(x, prev, i, ks[s]) && BuiltAt(x, prev, ender, i, ks[s], j, fuel, t);
      if s > 0 {
        assert ks[1..][s - 1] == ks[s];
      }
    }
    if BuiltIn(x, prev, ender, i, j, ks[1..], fuel, t) {
      var s :| 0 <= s < |ks[1..]| && ks[1..][s] >= i && Holds(x, prev, i, ks[1..][s])
        && BuiltAt(x, prev, ender, i, ks[1..][s], j, fuel, t);
      assert ks[s + 1] == ks[1..][s];
    }
  }

  lemma {:induction false} BySplitHas(x: Source, prev: int, ender: int, i: nat, j: nat, ks: seq<int>, acc: seq<Tree>,
                                      fuel: nat, t: Tree)
    requires InRange(x.p) && j < |x.states| && 0 <= ender < |x.p.steps| && 0 <= prev < |x.p.steps| && Within(ks, j + 1)
    requires TreesBySplit(x, prev, ender, i, j, ks, acc, fuel).Some?
    ensures AllPartsListed(x, prev, ender, i, j, ks, fuel)
    ensures t in TreesBySplit(x, prev, ender, i, j, ks, acc, fuel).value
       <==> t in acc || BuiltIn(x, prev, ender, i, j, ks, fuel, t)
    decreases |ks|
  {
    if ks != [] {
      BuiltInStep(x, prev, ender, i, j, ks, fuel, t);
      if ks[0] >= i && Holds(x, prev, i, ks[0]) {
        var k: nat := ks[0];
        var ps, es := DerivTrees(x, prev, i, k, fuel), DerivTrees(x, ender, k, j, fuel);
        CombineHas(ps.value, es.value, acc, t);
        BySplitHas(x, prev, ender, i, j, ks[1..], Combine(ps.value, es.value, acc), fuel, t);
      } else {
        BySplitHas(x, prev, ender, i, j, ks[1..], acc, fuel, t);
      }
    }
  }

  lemma {:induction false} BySplitSome(x: Source, prev: int, ender: int, i: nat, j: nat, ks: seq<int>, acc: seq<Tree>, fuel: nat)
    requires InRange(x.p) && j < |x.states| && 0 <= ender < |x.p.steps| && 0 <= prev < |x.p.steps| && Within(ks, j + 1)
    requires AllPartsListed(x, prev, ender, i, j, ks, fuel)
    ensures TreesBySplit(x, prev, ender, i, j, ks, acc, fuel).Some?
    decreases |ks|
  {
    if ks != [] {
      var rest := ks[1..];
      assert forall s :: 0 <= s < |rest| ==> rest[s] == ks[s + 1];
      if ks[0] >= i && Holds(x, prev, i, ks[0]) {
        var k: nat := ks[0];
        var ps, es := DerivTrees(x, prev, i, k, fuel), DerivTrees(x, ender, k, j, fuel);
        BySplitSome(x, prev, ender, i, j, rest, Combine(ps.value, es.value, acc), fuel);
      } else {
        BySplitSome(x, prev, ender, i, j, rest, acc, fuel);
      }
    }
  }

  ghost predicate BuiltBy(x: Source, prev: int, i: nat, j: nat, l: seq<int>, fuel: nat, t: Tree)
    requires InRange(x.p) && j < |x.states| && Within(l, |x.p.steps|) && (l != [] ==> 0 <= prev < |x.p.steps|)
  {
    exists s :: 0 <= s < |l| && BuiltIn(x, prev, l[s], i, j, Positions(x, l[s], j), fuel, t)
  }

  ghost predicate EveryPartListed(x: Source, prev: int, i: nat, j: nat, l: seq<int>, fuel: nat)
    requires InRange(x.p) && j < |x.states| && Within(l, |x.p.steps|) && (l != [] ==> 0 <= prev < |x.p.steps|)
  {
    forall s :: 0 <= s < |l| ==> AllPartsListed(x, prev, l[s], i, j, Positions(x, l[s], j), fuel)
  }

  lemma BuiltByStep(x: Source, prev: int, i: nat, j: nat, l: seq<int>, fuel: nat, t: Tree)
    requires InRange(x.p) && j < |x.states| && Within(l, |x.p.steps|) && l != [] && 0 <= prev < |x.p.steps|
    ensures Within(l[1..], |x.p.steps|)
    ensures BuiltBy(x, prev, i, j, l, fuel, t) <==>
      BuiltIn(x, prev, l[0], i, j, Positions(x, l[0], j), fuel, t) || BuiltBy(x, prev, i, j, l[1..], fuel, t)
    ensures EveryPartListed(x, prev, i, j, l, fuel) <==>
      AllPartsListed(x, prev, l[0], i, j, Positions(x, l[0], j), fuel) && EveryPartListed(x, prev, i, j, l[1..], fuel)
  {
    hide BuiltIn;
    hide AllPartsListed;
    hide Positions;
    var rest := l[1..];
    assert forall s :: 0 <= s < |rest| ==> rest[s] == l[s + 1];
    if BuiltBy(x, prev, i, j, rest, fuel, t) {
      var s :| 0 <= s < |rest| && BuiltIn(x, prev, rest[s], i, j, Positions(x, rest[s], j), fuel, t);
      assert BuiltIn(x, prev, l[s + 1], i, j, Positions(x, l[s + 1], j), fuel, t);
    }
    if BuiltBy(x, prev, i, j, l, fuel, t) {
      var s :| 0 <= s < |l| && BuiltIn(x, prev, l[s], i, j, Positions(x, l[s], j), fuel, t);
      if s > 0 {
        assert BuiltIn(x, prev, rest[s - 1], i, j, Positions(x, rest[s - 1], j), fuel, t);
      }
    }
    if EveryPartListed(x, prev, i, j, l, fuel) {
      forall s | 0 <= s < |rest|
        ensures AllPartsListed(x, prev, rest[s], i, j, Positions(x, rest[s], j), fuel)
      {
        assert AllPartsListed(x, prev, l[s + 1], i, j, Positions(x, l[s + 1], j), fuel);
      }
      assert AllPartsListed(x, prev, l[0], i, j, Positions(x, l[0], j), fuel);
    }
  }

  lemma {:induction false} ByEnderHas(x: Source, prev: int, i: nat, j: nat, l: seq<int>, acc: seq<Tree>, fuel: nat, t: Tree)
    requires InRange(x.p) && j < |x.states| && Within(l, |x.p.steps|) && (l != [] ==> 0 <= prev < |x.p.steps|)
    ensures TreesByEnder(x, prev, i, j, l, acc, fuel).Some? <==> EveryPartListed(x, prev, i, j, l, fuel)
    ensures var r := TreesByEnder(x, prev, i, j, l, acc, fuel);
      r.Some? ==> (t in r.value <==> t in acc || BuiltBy(x, prev, i, j, l, fuel, t))
    decreases |l|
  {
    if l != [] {
      BuiltByStep(x, prev, i, j, l, fuel, t);
      var ks := Positions(x, l[0], j);
      hide Positions;
      hide EveryPartListed;
      hide BuiltBy;
      hide AllPartsListed;
      var next := TreesBySplit(x, prev, l[0], i, j, ks, acc, fuel);
      if AllPartsListed(x, prev, l[0], i, j, ks, fuel) {
        BySplitSome(x, prev, l[0], i, j, ks, acc, fuel);
      }
      if next.Some? {
        BySplitHas(x, prev, l[0], i, j, ks, acc, fuel, t);
        ByEnderHas(x, prev, i, j, l[1..], next.value, fuel, t);
      }
    }
  }

  /** The item of `conf` from `i` to `j` can be split at `k`, the ender `e` covering the rest. */
  ghost predicate SplitOf(x: Source, conf: int, i: nat, j: nat, e: int, k: int)
    requires InRange(x.p) && 0 <= conf < |x.p.steps| && j < |x.states|
  {
    && 0 < conf && 0 <= e < |x.p.steps| && e in EndersAfter(x.p, conf - 1)
    && i <= k <= j && Holds(x, conf - 1, i, k) && k in Positions(x, e, j)
  }

  /** Both parts of every split have their trees. */
  ghost predicate SplitsListed(x: Source, conf: int, i: nat, j: nat, fuel: nat)
    requires InRange(x.p) && 0 <= conf < |x.p.steps| && j < |x.states|
  {
    forall e, k :: SplitOf(x, conf, i, j, e, k) ==> PartsListed(x, conf - 1, e, i, k, j, fuel)
  }

  ghost predicate BuiltFrom(x: Source, conf: int, i: nat, j: nat, fuel: nat, t: Tree)
    requires InRange(x.p) && 0 <= conf < |x.p.steps| && j < |x.states|
  {
    exists e, k :: SplitOf(x, conf, i, j, e, k) && BuiltAt(x, conf - 1, e, i, k, j, fuel, t)
  }

  /** What is listed for an item that can be split: what the splits build; and it is listed when their parts are. */
  lemma DerivHas(x: Source, conf: int, i: nat, j: nat, fuel: nat, t: Tree)
    requires InRange(x.p) && 0 <= conf < |x.p.steps| && j < |x.states| && fuel > 0 && !x.p.names[conf].Name?
    ensures DerivTrees(x, conf, i, j, fuel).Some? <==> SplitsListed(x, conf, i, j, fuel - 1)
    ensures var r := DerivTrees(x, conf, i, j, fuel);
      r.Some? ==> (t in r.value <==> BuiltFrom(x, conf, i, j, fuel - 1, t))
  {
    hide *;
    var l := DerivUnfold(x, conf, i, j, fuel);
    ByEnderHas(x, conf - 1, i, j, l, [], fuel - 1, t);
    EveryPart(x, conf, i, j, l, fuel - 1);
    EveryTree(x, conf, i, j, l, fuel - 1, t);
  }

  lemma DerivUnfold(x: Source, conf: int, i: nat, j: nat, fuel: nat) returns (l: seq<int>)
    requires InRange(x.p) && 0 <= conf < |x.p.steps| && j < |x.states| && fuel > 0 && !x.p.names[conf].Name?
    ensures l == EndersAfter(x.p, conf - 1) && Within(l, |x.p.steps|) && (l != [] ==> 0 <= conf - 1 < |x.p.steps|)
    ensures DerivTrees(x, conf, i, j, fuel) == TreesByEnder(x, conf - 1, i, j, l, [], fuel - 1)
  {
    l := EndersAfter(x.p, conf - 1);
    hide TreesByEnder;
  }

  lemma EveryPart(x: Source, conf: int, i: nat, j: nat, l: seq<int>, fuel: nat)
    requires InRange(x.p) && 0 <= conf < |x.p.steps| && j < |x.states| && l == EndersAfter(x.p, conf - 1)
    ensures SplitsListed(x, conf, i, j, fuel) <==> EveryPartListed(x, conf - 1, i, j, l, fuel)
  {
    hide EndersAfter;
    hide PartsListed;
    hide Positions;
    if SplitsListed(x, conf, i, j, fuel) {
      forall s | 0 <= s < |l|
        ensures AllPartsListed(x, conf - 1, l[s], i, j, Positions(x, l[s], j), fuel)
      {
        var ks := Positions(x, l[s], j);
        forall u | 0 <= u < |ks| && ks[u] >= i && Holds(x, conf - 1, i, ks[u])
          ensures PartsListed(x, conf - 1, l[s], i, ks[u], j, fuel)
        {
          assert SplitOf(x, conf, i, j, l[s], ks[u]);
        }
      }
    }
    if EveryPartListed(x, conf - 1, i, j, l, fuel) {
      forall e, k | SplitOf(x, conf, i, j, e, k)
        ensures PartsListed(x, conf - 1, e, i, k, j, fuel)
      {
        var s :| 0 <= s < |l| && l[s] == e;
        assert AllPartsListed(x, conf - 1, l[s], i, j, Positions(x, l[s], j), fuel);
        var u :| 0 <= u < |Positions(x, e, j)| && Positions(x, e, j)[u] == k;
      }
    }
  }

  lemma EveryTree(x: Source, conf: int, i: nat, j: nat, l: seq<int>, fuel: nat, t: Tree)
    requires InRange(x.p) && 0 <= conf < |x.p.steps| && j < |x.states| && l == EndersAfter(x.p, conf - 1)
    ensures BuiltFrom(x, conf, i, j, fuel, t) <==> BuiltBy(x, conf - 1, i, j, l, fuel, t)
  {
    hide EndersAfter;
    hide BuiltAt;
    hide Positions;
    hide Holds;
    hide InRange;
    if BuiltFrom(x, conf, i, j, fuel, t) {
      var e, k :| SplitOf(x, conf, i, j, e, k) && BuiltAt(x, conf - 1, e, i, k, j, fuel, t);
      var s :| 0 <= s < |l| && l[s] == e;
      var u :| 0 <= u < |Positions(x, e, j)| && Positions(x, e, j)[u] == k;
      assert BuiltIn(x, conf - 1, l[s], i, j, Positions(x, l[s], j), fuel, t);
    }
    if BuiltBy(x, conf - 1, i, j, l, fuel, t) {
      var s :| 0 <= s < |l| && BuiltIn(x, conf - 1, l[s], i, j, Positions(x, l[s], j), fuel, t);
      var ks := Positions(x, l[s], j);
      var u :| 0 <= u < |ks| && ks[u] >= i && Holds(x, conf - 1, i, ks[u]) && BuiltAt(x, conf - 1, l[s], i, ks[u], j, fuel, t);
      assert SplitOf(x, conf, i, j, l[s], ks[u]);
    }
  }

  // ---- the filtered chart

  /** A grammar compiled, its closed chart, and the filtered one as the enumeration reads it. */
  datatype Charts = Charts(g: Grammar, x: Source, dots: seq<Dot>, chart: Chart, m: Chart)

  /** The states show the items of the filtered chart, each once. */
  ghost predicate Shows(x: Source, m: Chart) {
    && |x.states| == |m|
    && (forall c, i, j :: 0 <= j < |m| ==> (Holds(x, c, i, j) <==> (c, i) in m[j]))
    && (forall c, j :: 0 <= j < |m| ==> Distinct(Positions(x, c, j)))
    && (forall c, j, k :: 0 <= j < |m| && Holds(x, c, k, j) ==> k in Positions(x, c, j))
  }

  ghost predicate EndersApart(p: Tables) {
    forall nt :: 0 <= nt < |p.enders| ==> Distinct(p.enders[nt])
  }

  ghost predicate Ready(z: Charts) {
    && Compiled(z.g, z.x.p, z.dots) && Alike(z.g, z.x.p, z.dots) && EndersApart(z.x.p)
    && ChartClosed(z.x.p, z.x.toks, z.chart) && EarleyFilter.Filtered(z.x.p, z.chart, z.m)
    && Shows(z.x, z.m) && ChartTrue(z.g, z.x, z.dots)
  }

  ghost predicate Held(z: Charts, c: int, i: int, j: int) {
    0 <= j < |z.m| && (c, i) in z.m[j]
  }

  /** The rule of the item was begun where the item begins. */
  ghost predicate Begun(z: Charts, c: int, i: int) {
    0 <= c < |z.dots| && (z.dots[c].Dot? ==> 0 <= i < |z.chart| && (RuleAt(z.dots, c), i) in z.chart[i])
  }

  ghost predicate IsTree(z: Charts, t: Tree, c: int, i: int, j: int) {
    ItemTree(z.g, z.x.toks, z.x.p, z.dots, t, c, i, j)
  }

  /** A configuration with a tree, begun in the closed chart, is in it. */
  lemma TreeCharted(z: Charts, t: Tree, c: int, i: int, j: int)
    requires Compiled(z.g, z.x.p, z.dots) && ChartClosed(z.x.p, z.x.toks, z.chart)
    requires Begun(z, c, i) && IsTree(z, t, c, i, j) && z.dots[c].Dot?
    ensures 0 <= i <= j < |z.chart| && (c, i) in z.chart[j]
  {
    var s, pos := RuleAt(z.dots, c), z.dots[c].pos;
    StartOfRule(z.g, z.x.p, z.dots, c);
    var rhs := z.dots[s].rhs;
    ParsesDerive(z.g, z.x.toks, t.kids, rhs[..pos], i, j);
    var h: nat :| DerivesAll(z.g, z.x.toks, rhs[..pos], i, j, h);
    hide Compiled;
    hide ChartClosed;
    hide ItemTree;
    RuleReached(z.g, z.x.toks, z.x.p, z.dots, z.chart, s, pos, i, j, h);
  }

  /** An ender with a tree is begun, and in the closed chart, wherever its nonterminal is predicted. */
  lemma EnderCharted(z: Charts, u: Tree, nt: int, e: int, k: int, j: int)
    requires Compiled(z.g, z.x.p, z.dots) && ChartClosed(z.x.p, z.x.toks, z.chart) && 0 <= nt < |z.x.p.nts|
    requires 0 <= k < |z.chart| && forall s :: s in z.x.p.starters[nt] ==> (s, k) in z.chart[k]
    requires 0 <= e < |z.dots| && z.x.p.steps[e] == nt - |z.x.p.nts| && IsTree(z, u, e, k, j)
    ensures Begun(z, e, k) && k <= j < |z.chart| && (e, k) in z.chart[j]
  {
    assert DotOk(z.g, z.x.p, z.dots, e);
    assert ListsOk(z.x.p, z.dots, nt);
    if z.dots[e].Tok? {
      TokenReached(z.g, z.x.toks, z.x.p, z.dots, z.chart, nt, k);
    } else {
      StartOfRule(z.g, z.x.p, z.dots, e);
      TreeCharted(z, u, e, k, j);
    }
  }

  /** What `prev` waits for is predicted where it is charted. */
  lemma EnderBegun(z: Charts, conf: int, i: int, e: int, k: int, j: int, u: Tree)
    requires Compiled(z.g, z.x.p, z.dots) && ChartClosed(z.x.p, z.x.toks, z.chart)
    requires 0 < conf <= |z.x.p.steps| && 0 <= k < |z.chart| && (conf - 1, i) in z.chart[k]
    requires e in EndersAfter(z.x.p, conf - 1) && IsTree(z, u, e, k, j)
    ensures Begun(z, e, k) && k <= j < |z.chart| && (e, k) in z.chart[j]
  {
    var nt := z.x.p.steps[conf - 1];
    PredictedAt(z.x.p, z.x.toks, z.chart, conf - 1, i, k);
    assert ListsOk(z.x.p, z.dots, nt);
    hide IsTree;
    hide ChartClosed;
    EnderCharted(z, u, nt, e, k, j);
  }

  /** The parts of a kept item's tree belong to kept items. */
  lemma PartsHeld(z: Charts, conf: int, i: int, j: int, e: int, k: int, p: Tree, u: Tree)
    requires Ready(z) && Held(z, conf, i, j) && Begun(z, conf, i) && z.x.p.names[conf] == NoName
    requires 0 < conf < |z.dots| && e in EndersAfter(z.x.p, conf - 1)
    requires IsTree(z, p, conf - 1, i, k) && IsTree(z, u, e, k, j)
    ensures i <= k <= j && Held(z, conf - 1, i, k) && Begun(z, conf - 1, i) && Held(z, e, k, j) && Begun(z, e, k)
  {
    hide IsTree;
    hide ItemTree;
    assert DotOk(z.g, z.x.p, z.dots, conf);
    assert RuleAt(z.dots, conf - 1) == RuleAt(z.dots, conf);
    TreeCharted(z, p, conf - 1, i, k);
    EnderBegun(z, conf, i, e, k, j, u);
    SplitHeld(z, conf, i, j, e, k);
  }

  lemma SplitHeld(z: Charts, conf: int, i: int, j: int, e: int, k: int)
    requires InRange(z.x.p) && EarleyFilter.Filtered(z.x.p, z.chart, z.m) && Held(z, conf, i, j)
    requires |z.x.p.nts| <= conf - 1 && conf < |z.x.p.steps| && e in EndersAfter(z.x.p, conf - 1)
    requires i <= k <= j < |z.chart| && 0 <= k && (conf - 1, i) in z.chart[k] && (e, k) in z.chart[j]
    ensures Held(z, conf - 1, i, k) && Held(z, e, k, j)
  {
    var p := z.x.p;
    assert EarleyFilter.BackClosed(p, z.chart, z.m, z.m[j], j);
    assert EarleyFilter.ItemKept(p, z.chart, z.m, (conf, i).0, (conf, i).1, j);
    assert EarleyFilter.EnderKept(z.chart, z.m, conf - 1, e, i, j);
    assert EarleyFilter.SplitKept(z.chart, z.m, conf - 1, e, i, k, j);
  }

  lemma ReadyParts(z: Charts, conf: int, j: int)
    requires Ready(z) && 0 <= conf < |z.dots|
    ensures InRange(z.x.p) && |z.x.p.steps| == |z.x.p.names| == |z.dots| && |z.x.states| == |z.m| == |z.chart|
    ensures Compiled(z.g, z.x.p, z.dots) && ChartTrue(z.g, z.x, z.dots)
  {}

  /** The split that a kept item's tree makes is one of those that the loops take. */
  lemma SplitTaken(z: Charts, conf: int, i: nat, j: nat, e: int, k: int)
    requires Ready(z) && j < |z.m| && 0 < conf < |z.x.p.steps| && 0 <= e < |z.x.p.steps| && e in EndersAfter(z.x.p, conf - 1)
    requires i <= k <= j && Held(z, conf - 1, i, k) && Held(z, e, k, j)
    ensures SplitOf(z.x, conf, i, j, e, k)
  {
    hide EndersAfter;
    hide Compiled;
    hide ChartClosed;
    hide ChartTrue;
    hide Positions;
    hide EarleyFilter.Filtered;
  }

  /** Every tree of a kept item is listed. */
  lemma {:induction false} TreeListed(z: Charts, conf: int, i: nat, j: nat, fuel: nat, t: Tree)
    requires Ready(z) && j < |z.x.states| && 0 <= conf < |z.x.p.steps| && Held(z, conf, i, j) && Begun(z, conf, i)
    requires DerivTrees(z.x, conf, i, j, fuel).Some? && IsTree(z, t, conf, i, j)
    ensures t in DerivTrees(z.x, conf, i, j, fuel).value
    decreases fuel
  {
    hide *;
    BegunRange(z, conf, i);
    ReadyParts(z, conf, j);
    FuelLeft(z.x, conf, i, j, fuel);
    if z.x.p.names[conf].Name? {
      NamedListed(z, conf, i, j, fuel, t);
    } else {
      IsTreeItem(z, t, conf, i, j);
      var p, u, e, k := TreeSplits(z.g, z.x, z.dots, t, conf, i, j);
      IsTreeIntro(z, p, conf - 1, i, k);
      IsTreeIntro(z, u, e, k, j);
      PartsHeld(z, conf, i, j, e, k, p, u);
      SplitTaken(z, conf, i, j, e, k);
      DerivHas(z.x, conf, i, j, fuel, t);
      PartsOf(z.x, conf, i, j, fuel - 1, e, k);
      TreeListed(z, conf - 1, i, k, fuel - 1, p);
      TreeListed(z, e, k, j, fuel - 1, u);
      BuiltIntro(z.x, conf, i, j, fuel - 1, e, k, p, u);
    }
  }

  lemma BegunRange(z: Charts, conf: int, i: int)
    requires Begun(z, conf, i)
    ensures 0 <= conf < |z.dots|
  {}

  lemma FuelLeft(x: Source, conf: int, i: nat, j: nat, fuel: nat)
    requires InRange(x.p) && 0 <= conf < |x.p.steps| && j < |x.states| && DerivTrees(x, conf, i, j, fuel).Some?
    ensures fuel > 0
  {}

  lemma IsTreeItem(z: Charts, t: Tree, c: int, i: int, j: int)
    requires IsTree(z, t, c, i, j)
    ensures ItemTree(z.g, z.x.toks, z.x.p, z.dots, t, c, i, j)
  {}

  lemma IsTreeIntro(z: Charts, t: Tree, c: int, i: int, j: int)
    requires ItemTree(z.g, z.x.toks, z.x.p, z.dots, t, c, i, j)
    ensures IsTree(z, t, c, i, j)
  {}

  lemma PartsOf(x: Source, conf: int, i: nat, j: nat, fuel: nat, e: int, k: int)
    requires InRange(x.p) && 0 <= conf < |x.p.steps| && j < |x.states|
    requires SplitsListed(x, conf, i, j, fuel) && SplitOf(x, conf, i, j, e, k)
    ensures 0 < conf && 0 <= e < |x.p.steps| && 0 <= k <= j
    ensures DerivTrees(x, conf - 1, i, k, fuel).Some? && DerivTrees(x, e, k, j, fuel).Some?
  {
    hide DerivTrees;
    hide InRange;
  }

  lemma BuiltIntro(x: Source, conf: int, i: nat, j: nat, fuel: nat, e: int, k: int, p: Tree, u: Tree)
    requires InRange(x.p) && 0 <= conf < |x.p.steps| && j < |x.states| && SplitOf(x, conf, i, j, e, k)
    requires 0 < conf && 0 <= e < |x.p.steps| && 0 <= k <= j
    requires DerivTrees(x, conf - 1, i, k, fuel).Some? && p in DerivTrees(x, conf - 1, i, k, fuel).value
    requires DerivTrees(x, e, k, j, fuel).Some? && u in DerivTrees(x, e, k, j, fuel).value
    ensures BuiltFrom(x, conf, i, j, fuel, Appended(p, u))
  {
    hide DerivTrees;
    hide SplitOf;
    hide InRange;
    JoinsIntro(DerivTrees(x, conf - 1, i, k, fuel).value, DerivTrees(x, e, k, j, fuel).value, p, u);
    hide Joins;
    assert BuiltAt(x, conf - 1, e, i, k, j, fuel, Appended(p, u));
  }

  lemma NamedListed(z: Charts, conf: int, i: nat, j: nat, fuel: nat, t: Tree)
    requires Ready(z) && j < |z.x.states| && 0 <= conf < |z.x.p.steps| && z.x.p.names[conf].Name?
    requires fuel > 0 && IsTree(z, t, conf, i, j)
    ensures var r := DerivTrees(z.x, conf, i, j, fuel);
      r.Some? && r.value == [t]
  {
    assert DotOk(z.g, z.x.p, z.dots, conf);
    if z.dots[conf].Dot? {
      assert z.dots[conf].rhs[..0] == [];
      LengthOfParses(z.g, z.x.toks, t.kids, [], i, j);
    }
  }

  // ---- nothing is listed twice

  /** What is listed for an item of the chart are trees of it. */
  lemma ListedIsTree(z: Charts, c: int, i: nat, j: nat, fuel: nat, t: Tree)
    requires Ready(z) && j < |z.x.states| && 0 <= c < |z.x.p.steps| && Holds(z.x, c, i, j)
    requires DerivTrees(z.x, c, i, j, fuel).Some? && t in DerivTrees(z.x, c, i, j, fuel).value
    ensures IsTree(z, t, c, i, j) && t.Node?
  {
    assert ItemTrue(z.g, z.x.toks, z.x.p, z.dots, c, i, j);
    TreesParse(z.g, z.x, z.dots, c, i, j, fuel);
  }

  /** No tree of the item uses, below its root, an alternative that is given twice. */
  ghost predicate CleanItem(z: Charts, c: int, i: int, j: int) {
    forall t :: IsTree(z, t, c, i, j) && t.Node? ==> !RepeatsBelow(z.g, t.kids)
  }

  lemma CleanAt(z: Charts, c: int, i: int, j: int, t: Tree)
    requires CleanItem(z, c, i, j) && IsTree(z, t, c, i, j) && t.Node?
    ensures !RepeatsBelow(z.g, t.kids)
  {
    hide IsTree;
    hide RepeatsBelow;
  }

  lemma CleanIntro(z: Charts, c: int, i: int, j: int)
    ensures (forall t :: IsTree(z, t, c, i, j) && t.Node? ==> !RepeatsBelow(z.g, t.kids)) ==> CleanItem(z, c, i, j)
  {
    hide IsTree;
    hide RepeatsBelow;
  }

  /** Trees of the two parts make a tree of the item. */
  lemma JoinIsTree(z: Charts, prev: int, e: int, i: int, k: int, j: int, p: Tree, u: Tree)
    requires Ready(z) && InRange(z.x.p) && 0 <= prev && prev + 1 < |z.x.p.names| && z.x.p.names[prev + 1] == NoName
    requires e in EndersAfter(z.x.p, prev) && IsTree(z, p, prev, i, k) && IsTree(z, u, e, k, j)
    ensures p.Node? && Appended(p, u).Node? && Appended(p, u).kids == p.kids + [u] && IsTree(z, Appended(p, u), prev + 1, i, j)
  {
    hide *;
    ReadyRange(z);
    IsTreeItem(z, p, prev, i, k);
    IsTreeItem(z, u, e, k, j);
    UnnamedDot(z.g, z.x.p, z.dots, prev + 1);
    EnderStep(z.g, z.x.p, z.dots, prev, e);
    ItemTreeName(z.g, z.x, z.dots, p, prev, i, k);
    AppendedTree(z.g, z.x, z.dots, prev, e, i, k, j, p, u);
    IsTreeIntro(z, Appended(p, u), prev + 1, i, j);
    AppendedKids(p, u);
  }

  lemma AppendedKids(p: Tree, u: Tree)
    requires p.Node?
    ensures Appended(p, u).Node? && Appended(p, u).kids == p.kids + [u]
  {}

  /** What follows a clean part is clean, all of it. */
  lemma LastClean(z: Charts, prev: int, e: int, i: int, k: int, j: int, p: Tree, u: Tree)
    requires Ready(z) && InRange(z.x.p) && 0 <= prev && prev + 1 < |z.x.p.names| && z.x.p.names[prev + 1] == NoName
    requires e in EndersAfter(z.x.p, prev) && IsTree(z, p, prev, i, k) && IsTree(z, u, e, k, j)
    requires CleanItem(z, prev + 1, i, j)
    ensures p.Node? && !RepeatsBelow(z.g, p.kids) && !Repeats(z.g, u)
  {
    hide *;
    JoinIsTree(z, prev, e, i, k, j, p, u);
    CleanAt(z, prev + 1, i, j, Appended(p, u));
    RepeatsAppended(z.g, p.kids, u);
  }

  lemma NoRepeatBelow(g: Grammar, u: Tree)
    requires !Repeats(g, u) && u.Node?
    ensures !RepeatsBelow(g, u.kids) && !GivenTwice(g, u.name, Symbols(u.kids))
  {}

  /** The parts of a clean item are clean. */
  lemma CleanParts(z: Charts, prev: int, e: int, i: nat, k: int, j: nat)
    requires Ready(z) && InRange(z.x.p) && 0 <= prev && prev + 1 < |z.x.p.names| && z.x.p.names[prev + 1] == NoName
    requires e in EndersAfter(z.x.p, prev) && CleanItem(z, prev + 1, i, j)
    requires 0 <= k <= j < |z.x.states| && Holds(z.x, prev, i, k) && Holds(z.x, e, k, j)
    ensures CleanItem(z, prev, i, k) && CleanItem(z, e, k, j)
  {
    hide *;
    var p0 := HeldTree(z, prev, i, k);
    var u0 := HeldTree(z, e, k, j);
    forall p | IsTree(z, p, prev, i, k) && p.Node?
      ensures !RepeatsBelow(z.g, p.kids)
    {
      LastClean(z, prev, e, i, k, j, p, u0);
    }
    forall u | IsTree(z, u, e, k, j) && u.Node?
      ensures !RepeatsBelow(z.g, u.kids)
    {
      LastClean(z, prev, e, i, k, j, p0, u);
      NoRepeatBelow(z.g, u);
    }
    CleanIntro(z, prev, i, k);
    CleanIntro(z, e, k, j);
  }

  /** A kept item has a tree. */
  lemma HeldTree(z: Charts, c: int, i: nat, j: nat) returns (t: Tree)
    requires Ready(z) && j < |z.x.states| && Holds(z.x, c, i, j)
    ensures IsTree(z, t, c, i, j)
  {
    assert ItemTrue(z.g, z.x.toks, z.x.p, z.dots, c, i, j);
    ReadyRange(z);
    hide Ready;
    t := ItemHasTree(z.g, z.x, z.dots, c, i, j);
  }

  /** The last subtree of `t` is no tree of ender `e` at these positions. */
  ghost predicate LastApart(z: Charts, t: Tree, e: int, ks: seq<int>, j: int) {
    t.Node? && t.kids != [] && forall s :: 0 <= s < |ks| ==> !IsTree(z, t.kids[|t.kids| - 1], e, ks[s], j)
  }

  ghost predicate LastsApart(z: Charts, ts: seq<Tree>, e: int, ks: seq<int>, j: int) {
    forall t :: t in ts ==> LastApart(z, t, e, ks, j)
  }

  /** The last subtree of `t` is no tree of any of these enders. */
  ghost predicate LastForeign(z: Charts, t: Tree, l: seq<int>, j: int) {
    t.Node? && t.kids != [] && Foreign(z, t.kids[|t.kids| - 1], l, j)
  }

  ghost predicate Foreign(z: Charts, u: Tree, l: seq<int>, j: int) {
    forall s, k :: 0 <= s < |l| ==> !IsTree(z, u, l[s], k, j)
  }

  ghost predicate LastsForeign(z: Charts, ts: seq<Tree>, l: seq<int>, j: int) {
    forall t :: t in ts ==> LastForeign(z, t, l, j)
  }

  ghost predicate AllHold(x: Source, c: int, ks: seq<int>, j: int)
    requires 0 <= j < |x.states|
  {
    forall s :: 0 <= s < |ks| ==> Holds(x, c, ks[s], j)
  }

  ghost predicate AllEnd(p: Tables, l: seq<int>) {
    forall s :: 0 <= s < |l| ==> 0 <= l[s] < |p.steps| && p.steps[l[s]] < 0
  }

  lemma LastsNotListed(z: Charts, acc: seq<Tree>, e: int, ks: seq<int>, j: int, es: seq<Tree>)
    requires LastsApart(z, acc, e, ks, j) && ks != [] && forall u :: u in es ==> IsTree(z, u, e, ks[0], j)
    ensures LastsNotIn(acc, es)
  {
    hide IsTree;
    forall t | t in acc
      ensures LastNotIn(t, es)
    {
      assert LastApart(z, t, e, ks, j);
    }
  }

  lemma JoinedApart(z: Charts, t: Tree, ps: seq<Tree>, es: seq<Tree>, e: int, ks: seq<int>, j: int)
    requires Compiled(z.g, z.x.p, z.dots) && 0 <= e < |z.dots| && z.x.p.steps[e] < 0
    requires Joins(ps, es, t) && AllNodes(ps) && ks != [] && Distinct(ks) && forall u :: u in es ==> IsTree(z, u, e, ks[0], j)
    ensures LastApart(z, t, e, ks[1..], j)
  {
    var p, u :| p in ps && u in es && t == Appended(p, u);
    assert t.kids[|t.kids| - 1] == u;
    var rest := ks[1..];
    assert forall s :: 0 <= s < |rest| ==> rest[s] == ks[s + 1];
    forall s | 0 <= s < |rest|
      ensures !IsTree(z, u, e, rest[s], j)
    {
      if IsTree(z, u, e, rest[s], j) {
        SpanTold(z.g, z.x, z.dots, u, e, ks[0], e, rest[s], j);
        assert false;
      }
    }
  }

  lemma ApartStep(z: Charts, acc: seq<Tree>, ps: seq<Tree>, es: seq<Tree>, e: int, ks: seq<int>, j: int)
    requires Compiled(z.g, z.x.p, z.dots) && 0 <= e < |z.dots| && z.x.p.steps[e] < 0
    requires AllNodes(ps) && ks != [] && Distinct(ks) && forall u :: u in es ==> IsTree(z, u, e, ks[0], j)
    requires LastsApart(z, acc, e, ks, j)
    ensures LastsApart(z, Combine(ps, es, acc), e, ks[1..], j)
  {
    hide IsTree;
    hide Joins;
    hide Compiled;
    forall t | t in Combine(ps, es, acc)
      ensures LastApart(z, t, e, ks[1..], j)
    {
      CombineHas(ps, es, acc, t);
      if t in acc {
        ApartFewer(z, t, e, ks, j);
      } else {
        JoinedApart(z, t, ps, es, e, ks, j);
      }
    }
  }

  lemma ApartFewer(z: Charts, t: Tree, e: int, ks: seq<int>, j: int)
    requires LastApart(z, t, e, ks, j) && ks != []
    ensures LastApart(z, t, e, ks[1..], j)
  {
    hide IsTree;
    var rest := ks[1..];
    assert forall s :: 0 <= s < |rest| ==> rest[s] == ks[s + 1];
  }

  lemma RestOfKs(x: Source, c: int, ks: seq<int>, j: int, n: int)
    requires 0 <= j < |x.states| && AllHold(x, c, ks, j) && Distinct(ks) && Within(ks, n) && ks != []
    ensures AllHold(x, c, ks[1..], j) && Distinct(ks[1..]) && Within(ks[1..], n) && 0 <= ks[0] < n && Holds(x, c, ks[0], j)
  {
    hide Holds;
    var rest := ks[1..];
    assert forall s :: 0 <= s < |rest| ==> rest[s] == ks[s + 1];
  }

  /** No tree of a kept item is listed twice, when none uses an alternative that is given twice. */
  lemma {:induction false} ListedOnce(z: Charts, conf: int, i: nat, j: nat, fuel: nat)
    requires Ready(z) && j < |z.x.states| && 0 <= conf < |z.x.p.steps| && Holds(z.x, conf, i, j) && CleanItem(z, conf, i, j)
    requires DerivTrees(z.x, conf, i, j, fuel).Some?
    ensures NoTwin(DerivTrees(z.x, conf, i, j, fuel).value)
    decreases fuel, 0
  {
    hide *;
    ReadyRange(z);
    FuelLeft(z.x, conf, i, j, fuel);
    if z.x.p.names[conf].Name? {
      OneListed(z.x, conf, i, j, fuel);
    } else {
      var l := DerivUnfold(z.x, conf, i, j, fuel);
      UnnamedIs(z.x.p, conf);
      EndersGood(z, conf, l, j);
      AllWaitingIntro(z, conf, l, i, j);
      ListedOnceByEnder(z, conf - 1, i, j, l, [], fuel - 1);
    }
  }

  lemma ReadyRange(z: Charts)
    requires Ready(z)
    ensures InRange(z.x.p) && |z.x.p.steps| == |z.x.p.names| == |z.dots| && |z.x.states| == |z.m| == |z.chart|
    ensures Compiled(z.g, z.x.p, z.dots) && Alike(z.g, z.x.p, z.dots)
  {}

  lemma UnnamedIs(p: Tables, conf: int)
    requires 0 <= conf < |p.names| && !p.names[conf].Name?
    ensures p.names[conf] == NoName
  {}

  lemma OneListed(x: Source, conf: int, i: nat, j: nat, fuel: nat)
    requires InRange(x.p) && 0 <= conf < |x.p.steps| && j < |x.states| && fuel > 0 && x.p.names[conf].Name?
    ensures var r := DerivTrees(x, conf, i, j, fuel);
      r.Some? && NoTwin(r.value)
  {}

  lemma EndersGood(z: Charts, conf: int, l: seq<int>, j: int)
    requires Ready(z) && 0 <= conf < |z.x.p.steps| && z.x.p.names[conf] == NoName && l == EndersAfter(z.x.p, conf - 1)
    ensures AllEnd(z.x.p, l) && Distinct(l) && LastsForeign(z, [], l, j) && NoTwin([]) && 0 < conf
    ensures l == EndersAfter(z.x.p, conf - 1) && AllIn(l, l)
  {
    UnnamedDot(z.g, z.x.p, z.dots, conf);
    assert DotOk(z.g, z.x.p, z.dots, conf - 1);
    if 0 <= z.x.p.steps[conf - 1] {
      assert ListsOk(z.x.p, z.dots, z.x.p.steps[conf - 1]);
    }
    forall s | 0 <= s < |l|
      ensures 0 <= l[s] < |z.x.p.steps| && z.x.p.steps[l[s]] < 0
    {
      assert l[s] in l;
    }
  }

  /** The clean item after `prev` waits for the ender `e`. */
  ghost predicate Waiting(z: Charts, prev: int, e: int, i: int, j: int)
    requires InRange(z.x.p)
  {
    && 0 <= prev && prev + 1 < |z.x.p.names| && z.x.p.names[prev + 1] == NoName
    && e in EndersAfter(z.x.p, prev) && CleanItem(z, prev + 1, i, j)
  }

  lemma WaitingParts(z: Charts, prev: int, e: int, i: int, j: int)
    requires InRange(z.x.p) && Waiting(z, prev, e, i, j)
    ensures 0 <= prev && prev + 1 < |z.x.p.names| && z.x.p.names[prev + 1] == NoName
    ensures e in EndersAfter(z.x.p, prev) && CleanItem(z, prev + 1, i, j)
  {}

  ghost predicate AllWaiting(z: Charts, prev: int, l: seq<int>, i: int, j: int)
    requires InRange(z.x.p)
  {
    forall s :: 0 <= s < |l| ==> Waiting(z, prev, l[s], i, j)
  }

  lemma AllWaitingStep(z: Charts, prev: int, l: seq<int>, i: int, j: int)
    requires InRange(z.x.p) && AllWaiting(z, prev, l, i, j) && l != []
    ensures Waiting(z, prev, l[0], i, j) && AllWaiting(z, prev, l[1..], i, j)
  {
    hide Waiting;
    var rest := l[1..];
    assert forall s :: 0 <= s < |rest| ==> rest[s] == l[s + 1];
  }

  lemma AllWaitingIntro(z: Charts, conf: int, l: seq<int>, i: int, j: int)
    requires InRange(z.x.p) && 0 < conf < |z.x.p.names| && z.x.p.names[conf] == NoName && CleanItem(z, conf, i, j)
    requires l == EndersAfter(z.x.p, conf - 1)
    ensures AllWaiting(z, conf - 1, l, i, j)
  {
    hide CleanItem;
    hide EndersAfter;
  }

  lemma {:induction false} ListedOnceBySplit(z: Charts, prev: int, e: int, i: nat, j: nat, ks: seq<int>, acc: seq<Tree>, fuel: nat)
    requires Ready(z) && j < |z.x.states| && 0 <= prev < |z.x.p.steps| && 0 <= e < |z.x.p.steps| && z.x.p.steps[e] < 0
    requires InRange(z.x.p) && Waiting(z, prev, e, i, j)
    requires Within(ks, j + 1) && Distinct(ks) && AllHold(z.x, e, ks, j) && NoTwin(acc) && LastsApart(z, acc, e, ks, j)
    requires TreesBySplit(z.x, prev, e, i, j, ks, acc, fuel).Some?
    ensures NoTwin(TreesBySplit(z.x, prev, e, i, j, ks, acc, fuel).value)
    decreases fuel, 1, |ks|
  {
    hide *;
    ReadyRange(z);
    SplitUnfold(z.x, prev, e, i, j, ks, acc, fuel);
    if ks != [] {
      RestOfKs(z.x, e, ks, j, j + 1);
      if ks[0] >= i && Holds(z.x, prev, i, ks[0]) {
        var k: nat := ks[0];
        WaitingParts(z, prev, e, i, j);
        CleanParts(z, prev, e, i, k, j);
        ListedOnce(z, prev, i, k, fuel);
        ListedOnce(z, e, k, j, fuel);
        var ps, es := DerivTrees(z.x, prev, i, k, fuel).value, DerivTrees(z.x, e, k, j, fuel).value;
        forall p | p in ps ensures p.Node? {
          ListedIsTree(z, prev, i, k, fuel, p);
        }
        forall u | u in es ensures IsTree(z, u, e, ks[0], j) {
          ListedIsTree(z, e, k, j, fuel, u);
        }
        AllNodesIntro(ps);
        LastsNotListed(z, acc, e, ks, j, es);
        CombineNoTwin(ps, es, acc);
        ApartStep(z, acc, ps, es, e, ks, j);
        ListedOnceBySplit(z, prev, e, i, j, ks[1..], Combine(ps, es, acc), fuel);
      } else {
        ApartFewerAll(z, acc, e, ks, j);
        ListedOnceBySplit(z, prev, e, i, j, ks[1..], acc, fuel);
      }
    }
  }

  lemma AllNodesIntro(ts: seq<Tree>)
    requires forall t :: t in ts ==> t.Node?
    ensures AllNodes(ts)
  {}

  lemma ApartFewerAll(z: Charts, ts: seq<Tree>, e: int, ks: seq<int>, j: int)
    requires LastsApart(z, ts, e, ks, j) && ks != []
    ensures LastsApart(z, ts, e, ks[1..], j)
  {
    hide LastApart;
    forall t | t in ts
      ensures LastApart(z, t, e, ks[1..], j)
    {
      ApartFewer(z, t, e, ks, j);
    }
  }

  /** One step of the loop over the positions. */
  lemma SplitUnfold(x: Source, prev: int, e: int, i: nat, j: nat, ks: seq<int>, acc: seq<Tree>, fuel: nat)
    requires InRange(x.p) && j < |x.states| && 0 <= e < |x.p.steps| && 0 <= prev < |x.p.steps| && Within(ks, j + 1)
    requires TreesBySplit(x, prev, e, i, j, ks, acc, fuel).Some?
    ensures var r := TreesBySplit(x, prev, e, i, j, ks, acc, fuel);
      if ks == [] then r.value == acc
      else if ks[0] >= i && Holds(x, prev, i, ks[0]) then
        && Within(ks[1..], j + 1) && DerivTrees(x, prev, i, ks[0], fuel).Some? && DerivTrees(x, e, ks[0], j, fuel).Some?
        && r == TreesBySplit(x, prev, e, i, j, ks[1..],
                             Combine(DerivTrees(x, prev, i, ks[0], fuel).value, DerivTrees(x, e, ks[0], j, fuel).value, acc), fuel)
      else Within(ks[1..], j + 1) && r == TreesBySplit(x, prev, e, i, j, ks[1..], acc, fuel)
  {
    hide DerivTrees;
    hide Combine;
    hide Holds;
  }

  lemma {:induction false} ListedOnceByEnder(z: Charts, prev: int, i: nat, j: nat, l: seq<int>, acc: seq<Tree>, fuel: nat)
    requires Ready(z) && j < |z.x.states| && (l != [] ==> 0 <= prev < |z.x.p.steps|) && Within(l, |z.x.p.steps|)
    requires InRange(z.x.p) && AllWaiting(z, prev, l, i, j)
    requires AllEnd(z.x.p, l) && Distinct(l) && NoTwin(acc) && LastsForeign(z, acc, l, j)
    requires TreesByEnder(z.x, prev, i, j, l, acc, fuel).Some?
    ensures NoTwin(TreesByEnder(z.x, prev, i, j, l, acc, fuel).value)
    decreases fuel, 2, |l|
  {
    hide *;
    ReadyRange(z);
    EnderUnfold(z.x, prev, i, j, l, acc, fuel);
    if l != [] {
      var e, ks := l[0], Positions(z.x, l[0], j);
      EndersRest(z.x.p, l);
      AllWaitingStep(z, prev, l, i, j);
      PositionsGood(z, e, j);
      ForeignApart(z, acc, l, ks, j);
      ListedOnceBySplit(z, prev, e, i, j, ks, acc, fuel);
      var next := TreesBySplit(z.x, prev, e, i, j, ks, acc, fuel).value;
      ForeignStep(z, prev, i, j, l, ks, acc, next, fuel);
      ListedOnceByEnder(z, prev, i, j, l[1..], next, fuel);
    }
  }

  lemma EnderUnfold(x: Source, prev: int, i: nat, j: nat, l: seq<int>, acc: seq<Tree>, fuel: nat)
    requires InRange(x.p) && j < |x.states| && Within(l, |x.p.steps|) && (l != [] ==> 0 <= prev < |x.p.steps|)
    requires TreesByEnder(x, prev, i, j, l, acc, fuel).Some?
    ensures var r := TreesByEnder(x, prev, i, j, l, acc, fuel);
      if l == [] then r.value == acc
      else
        && 0 <= l[0] < |x.p.steps| && Within(l[1..], |x.p.steps|) && Within(Positions(x, l[0], j), j + 1)
        && var next := TreesBySplit(x, prev, l[0], i, j, Positions(x, l[0], j), acc, fuel);
           next.Some? && r == TreesByEnder(x, prev, i, j, l[1..], next.value, fuel)
  {
    hide TreesBySplit;
  }

  lemma EndersRest(p: Tables, l: seq<int>)
    requires l != [] && AllEnd(p, l) && Distinct(l)
    ensures AllEnd(p, l[1..]) && Distinct(l[1..]) && 0 <= l[0] < |p.steps| && p.steps[l[0]] < 0
  {
    var rest := l[1..];
    assert forall s :: 0 <= s < |rest| ==> rest[s] == l[s + 1];
  }

  lemma PositionsGood(z: Charts, e: int, j: nat)
    requires Ready(z) && j < |z.x.states|
    ensures Distinct(Positions(z.x, e, j)) && AllHold(z.x, e, Positions(z.x, e, j), j)
  {}

  lemma ForeignApart(z: Charts, acc: seq<Tree>, l: seq<int>, ks: seq<int>, j: int)
    requires l != [] && LastsForeign(z, acc, l, j)
    ensures LastsApart(z, acc, l[0], ks, j)
  {
    hide IsTree;
    forall t | t in acc
      ensures LastApart(z, t, l[0], ks, j)
    {
      assert LastForeign(z, t, l, j);
    }
  }

  lemma ForeignStep(z: Charts, prev: int, i: nat, j: nat, l: seq<int>, ks: seq<int>, acc: seq<Tree>, next: seq<Tree>, fuel: nat)
    requires Ready(z) && InRange(z.x.p) && j < |z.x.states| && 0 <= prev < |z.x.p.steps|
    requires l != [] && Waiting(z, prev, l[0], i, j) && AllEnd(z.x.p, l) && Distinct(l) && LastsForeign(z, acc, l, j)
    requires 0 <= l[0] < |z.x.p.steps| && Within(ks, j + 1) && AllHold(z.x, l[0], ks, j)
    requires TreesBySplit(z.x, prev, l[0], i, j, ks, acc, fuel) == Some(next)
    ensures LastsForeign(z, next, l[1..], j)
  {
    hide *;
    ForeignIntro(z, next, l[1..], j);
    forall t | t in next
      ensures LastForeign(z, t, l[1..], j)
    {
      BySplitHas(z.x, prev, l[0], i, j, ks, acc, fuel, t);
      if t in acc {
        ForeignFewer(z, acc, t, l, j);
      } else {
        var k, p, u := BuiltParts(z, prev, l[0], i, j, ks, fuel, t);
        WaitingParts(z, prev, l[0], i, j);
        LastClean(z, prev, l[0], i, k, j, p, u);
        BuiltForeign(z, l, t, p, u, k, j);
      }
    }
  }

  lemma ForeignIntro(z: Charts, ts: seq<Tree>, l: seq<int>, j: int)
    ensures (forall t :: t in ts ==> LastForeign(z, t, l, j)) ==> LastsForeign(z, ts, l, j)
  {
    hide LastForeign;
  }

  lemma ForeignFewer(z: Charts, ts: seq<Tree>, t: Tree, l: seq<int>, j: int)
    requires LastsForeign(z, ts, l, j) && t in ts && l != []
    ensures LastForeign(z, t, l[1..], j)
  {
    hide IsTree;
    var rest := l[1..];
    assert LastForeign(z, t, l, j);
    assert forall s :: 0 <= s < |rest| ==> rest[s] == l[s + 1];
  }

  lemma BuiltParts(z: Charts, prev: int, e: int, i: nat, j: nat, ks: seq<int>, fuel: nat, t: Tree) returns (k: int, p: Tree, u: Tree)
    requires Ready(z) && InRange(z.x.p) && j < |z.x.states| && 0 <= prev < |z.x.p.steps| && 0 <= e < |z.x.p.steps|
    requires Within(ks, j + 1) && AllHold(z.x, e, ks, j) && BuiltIn(z.x, prev, e, i, j, ks, fuel, t)
    ensures p.Node? && t == Appended(p, u) && IsTree(z, p, prev, i, k) && IsTree(z, u, e, k, j)
  {
    hide Ready;
    hide InRange;
    hide IsTree;
    hide Holds;
    hide DerivTrees;
    var s :| 0 <= s < |ks| && ks[s] >= i && Holds(z.x, prev, i, ks[s]) && BuiltAt(z.x, prev, e, i, ks[s], j, fuel, t);
    k := ks[s];
    var ps, es := DerivTrees(z.x, prev, i, k, fuel).value, DerivTrees(z.x, e, k, j, fuel).value;
    p, u :| p in ps && u in es && t == Appended(p, u);
    ListedIsTree(z, prev, i, k, fuel, p);
    ListedIsTree(z, e, k, j, fuel, u);
  }

  lemma BuiltForeign(z: Charts, l: seq<int>, t: Tree, p: Tree, u: Tree, k: int, j: int)
    requires Ready(z) && l != [] && AllEnd(z.x.p, l) && Distinct(l)
    requires p.Node? && t == Appended(p, u) && IsTree(z, u, l[0], k, j) && !Repeats(z.g, u)
    ensures LastForeign(z, t, l[1..], j)
  {
    ReadyRange(z);
    hide Ready;
    hide Compiled;
    assert t.kids[|t.kids| - 1] == u;
    var rest := l[1..];
    forall s, k' | 0 <= s < |rest|
      ensures !IsTree(z, u, rest[s], k', j)
    {
      assert rest[s] == l[s + 1];
      if IsTree(z, u, rest[s], k', j) {
        TreeTells(z.g, z.x, z.dots, u, l[0], k, rest[s], k', j);
        NoRepeatBelow(z.g, u);
      }
    }
  }

  // ---- when the enumeration does not end

  lemma NamedSome(x: Source, conf: int, i: nat, j: nat, fuel: nat)
    requires InRange(x.p) && 0 <= conf < |x.p.steps| && j < |x.states| && fuel > 0 && x.p.names[conf].Name?
    ensures DerivTrees(x, conf, i, j, fuel).Some?
  {}

  /** A split whose parts are not both listed. */
  lemma SplitMissing(x: Source, conf: int, i: nat, j: nat, fuel: nat) returns (e: int, k: int)
    requires InRange(x.p) && 0 <= conf < |x.p.steps| && j < |x.states| && !SplitsListed(x, conf, i, j, fuel)
    ensures 0 < conf && 0 <= e < |x.p.steps| && e in EndersAfter(x.p, conf - 1) && i <= k <= j
    ensures Holds(x, conf - 1, i, k) && Holds(x, e, k, j)
    ensures DerivTrees(x, conf - 1, i, k, fuel).None? || DerivTrees(x, e, k, j, fuel).None?
  {
    hide DerivTrees;
    hide Holds;
    hide InRange;
    hide EndersAfter;
    hide Positions;
    e, k :| SplitOf(x, conf, i, j, e, k) && !PartsListed(x, conf - 1, e, i, k, j, fuel);
    var u :| 0 <= u < |Positions(x, e, j)| && Positions(x, e, j)[u] == k;
  }

  lemma HeldTrue(g: Grammar, x: Source, dots: seq<Dot>, c: int, i: int, j: int)
    requires ChartTrue(g, x, dots) && 0 <= j < |x.states| && Holds(x, c, i, j)
    ensures ItemTrue(g, x.toks, x.p, dots, c, i, j)
  {}

  /** An item whose enumeration is cut off has a tree at least as large as the depth at which it is. */
  lemma {:induction false} CutOffIsTall(g: Grammar, x: Source, dots: seq<Dot>, conf: int, i: nat, j: nat, fuel: nat)
    returns (t: Tree)
    requires Compiled(g, x.p, dots) && ChartTrue(g, x, dots) && j < |x.states| && 0 <= conf < |x.p.steps|
    requires ItemTrue(g, x.toks, x.p, dots, conf, i, j) && InRange(x.p) && DerivTrees(x, conf, i, j, fuel).None?
    ensures ItemTree(g, x.toks, x.p, dots, t, conf, i, j) && Size(t) >= fuel
    decreases fuel
  {
    hide *;
    t := ItemHasTree(g, x, dots, conf, i, j);
    if fuel > 0 {
      CompiledSizes(g, x.p, dots);
      if x.p.names[conf].Name? {
        NamedSome(x, conf, i, j, fuel);
        assert false;
      } else {
        DerivHas(x, conf, i, j, fuel, t);
        var e, k := SplitMissing(x, conf, i, j, fuel - 1);
        HeldTrue(g, x, dots, conf - 1, i, k);
        HeldTrue(g, x, dots, e, k, j);
        UnnamedDot(g, x.p, dots, conf);
        EnderStep(g, x.p, dots, conf - 1, e);
        var p := ItemHasTree(g, x, dots, conf - 1, i, k);
        var u := ItemHasTree(g, x, dots, e, k, j);
        if DerivTrees(x, conf - 1, i, k, fuel - 1).None? {
          p := CutOffIsTall(g, x, dots, conf - 1, i, k, fuel - 1);
        } else {
          u := CutOffIsTall(g, x, dots, e, k, j, fuel - 1);
        }
        ItemTreeName(g, x, dots, p, conf - 1, i, k);
        AppendedTree(g, x, dots, conf - 1, e, i, k, j, p, u);
        AppendedSize(p, u);
        t := Appended(p, u);
      }
    }
  }

  // ---- the goal

  /** `t` is listed for one of these enders. */
  ghost predicate ListedFor(x: Source, l: seq<int>, i: nat, j: nat, fuel: nat, t: Tree)
    requires InRange(x.p) && j < |x.states| && Within(l, |x.p.steps|)
  {
    exists s :: 0 <= s < |l| && Holds(x, l[s], i, j) && DerivTrees(x, l[s], i, j, fuel).Some?
             && t in DerivTrees(x, l[s], i, j, fuel).value
  }

  ghost predicate AllListed(x: Source, l: seq<int>, i: nat, j: nat, fuel: nat)
    requires InRange(x.p) && j < |x.states| && Within(l, |x.p.steps|)
  {
    forall s :: 0 <= s < |l| && Holds(x, l[s], i, j) ==> DerivTrees(x, l[s], i, j, fuel).Some?
  }

  lemma ListedForStep(x: Source, l: seq<int>, i: nat, j: nat, fuel: nat, t: Tree)
    requires InRange(x.p) && j < |x.states| && Within(l, |x.p.steps|) && l != []
    ensures Within(l[1..], |x.p.steps|)
    ensures AllListed(x, l, i, j, fuel) <==>
      (Holds(x, l[0], i, j) ==> DerivTrees(x, l[0], i, j, fuel).Some?) && AllListed(x, l[1..], i, j, fuel)
    ensures ListedFor(x, l, i, j, fuel, t) <==>
      || (Holds(x, l[0], i, j) && DerivTrees(x, l[0], i, j, fuel).Some? && t in DerivTrees(x, l[0], i, j, fuel).value)
      || ListedFor(x, l[1..], i, j, fuel, t)
  {
    hide Holds;
    hide DerivTrees;
    hide InRange;
    var rest := l[1..];
    assert forall s :: 0 <= s < |rest| ==> rest[s] == l[s + 1];
    if ListedFor(x, l, i, j, fuel, t) {
      var s :| 0 <= s < |l| && Holds(x, l[s], i, j) && DerivTrees(x, l[s], i, j, fuel).Some?
        && t in DerivTrees(x, l[s], i, j, fuel).value;
      if s > 0 {
        assert Holds(x, rest[s - 1], i, j);
      }
    }
    if AllListed(x, rest, i, j, fuel) && (Holds(x, l[0], i, j) ==> DerivTrees(x, l[0], i, j, fuel).Some?) {
      forall s | 0 <= s < |l| && Holds(x, l[s], i, j)
        ensures DerivTrees(x, l[s], i, j, fuel).Some?
      {
        if s > 0 {
          assert Holds(x, rest[s - 1], i, j);
        }
      }
    }
  }

  lemma {:induction false} TreesOfHas(x: Source, l: seq<int>, i: nat, j: nat, trees: seq<Tree>, fuel: nat, t: Tree)
    requires InRange(x.p) && j < |x.states| && Within(l, |x.p.steps|)
    ensures TreesOf(x, l, i, j, trees, fuel).Some? <==> AllListed(x, l, i, j, fuel)
    ensures var r := TreesOf(x, l, i, j, trees, fuel);
      r.Some? ==> (t in r.value <==> t in trees || ListedFor(x, l, i, j, fuel, t))
    decreases |l|
  {
    hide DerivTrees;
    hide Holds;
    hide InRange;
    if l != [] {
      ListedForStep(x, l, i, j, fuel, t);
      hide AllListed;
      hide ListedFor;
      if Holds(x, l[0], i, j) {
        var ts := DerivTrees(x, l[0], i, j, fuel);
        if ts.Some? {
          TreesOfHas(x, l[1..], i, j, ts.value + trees, fuel, t);
        }
      } else {
        TreesOfHas(x, l[1..], i, j, trees, fuel, t);
      }
    }
  }

  /** None of the trees is one of these enders'. */
  ghost predicate OfOthers(z: Charts, ts: seq<Tree>, l: seq<int>, i: int, j: int) {
    forall t, s :: t in ts && 0 <= s < |l| ==> !IsTree(z, t, l[s], i, j)
  }

  /** No tree of these enders uses an alternative that is given twice. */
  ghost predicate CleanEnders(z: Charts, l: seq<int>, i: int, j: int) {
    forall s, t :: 0 <= s < |l| && IsTree(z, t, l[s], i, j) ==> !Repeats(z.g, t)
  }

  lemma CleanEndersStep(z: Charts, l: seq<int>, i: int, j: int)
    requires CleanEnders(z, l, i, j) && l != []
    ensures CleanEnders(z, l[1..], i, j) && CleanItem(z, l[0], i, j)
    ensures forall t :: IsTree(z, t, l[0], i, j) ==> !Repeats(z.g, t)
  {
    hide IsTree;
    hide GivenTwice;
    hide RepeatsBelow;
    var rest := l[1..];
    assert forall s :: 0 <= s < |rest| ==> rest[s] == l[s + 1];
    forall t | IsTree(z, t, l[0], i, j) && t.Node?
      ensures !RepeatsBelow(z.g, t.kids)
    {
      assert !Repeats(z.g, t);
    }
  }

  lemma {:induction false} TreesOfOnce(z: Charts, l: seq<int>, i: nat, j: nat, trees: seq<Tree>, fuel: nat)
    requires Ready(z) && CleanEnders(z, l, i, j) && InRange(z.x.p) && j < |z.x.states| && Within(l, |z.x.p.steps|)
    requires AllEnd(z.x.p, l) && Distinct(l) && NoTwin(trees) && OfOthers(z, trees, l, i, j)
    requires TreesOf(z.x, l, i, j, trees, fuel).Some?
    ensures NoTwin(TreesOf(z.x, l, i, j, trees, fuel).value)
    decreases |l|
  {
    hide *;
    ReadyRange(z);
    TreesOfUnfold(z.x, l, i, j, trees, fuel);
    if l != [] {
      EndersRest(z.x.p, l);
      CleanEndersStep(z, l, i, j);
      if Holds(z.x, l[0], i, j) {
        var ts := DerivTrees(z.x, l[0], i, j, fuel).value;
        ListedOnce(z, l[0], i, j, fuel);
        forall t | t in ts
          ensures IsTree(z, t, l[0], i, j) && t.Node? && !Repeats(z.g, t)
        {
          ListedIsTree(z, l[0], i, j, fuel, t);
        }
        JoinedOnce(z, ts, trees, l, i, j);
        TreesOfOnce(z, l[1..], i, j, ts + trees, fuel);
      } else {
        OthersFewer(z, trees, l, i, j);
        TreesOfOnce(z, l[1..], i, j, trees, fuel);
      }
    }
  }

  lemma TreesOfUnfold(x: Source, l: seq<int>, i: nat, j: nat, trees: seq<Tree>, fuel: nat)
    requires InRange(x.p) && j < |x.states| && Within(l, |x.p.steps|) && TreesOf(x, l, i, j, trees, fuel).Some?
    ensures var r := TreesOf(x, l, i, j, trees, fuel);
      if l == [] then r.value == trees
      else if Holds(x, l[0], i, j) then
        && Within(l[1..], |x.p.steps|) && DerivTrees(x, l[0], i, j, fuel).Some?
        && r == TreesOf(x, l[1..], i, j, DerivTrees(x, l[0], i, j, fuel).value + trees, fuel)
      else Within(l[1..], |x.p.steps|) && r == TreesOf(x, l[1..], i, j, trees, fuel)
  {
    hide DerivTrees;
    hide Holds;
  }

  lemma OthersFewer(z: Charts, ts: seq<Tree>, l: seq<int>, i: int, j: int)
    requires OfOthers(z, ts, l, i, j) && l != []
    ensures OfOthers(z, ts, l[1..], i, j)
  {
    hide IsTree;
    var rest := l[1..];
    assert forall s :: 0 <= s < |rest| ==> rest[s] == l[s + 1];
  }

  lemma JoinedOnce(z: Charts, ts: seq<Tree>, trees: seq<Tree>, l: seq<int>, i: int, j: int)
    requires Compiled(z.g, z.x.p, z.dots) && Alike(z.g, z.x.p, z.dots) && |z.x.p.steps| == |z.dots|
    requires l != [] && AllEnd(z.x.p, l) && Distinct(l) && NoTwin(ts) && NoTwin(trees) && OfOthers(z, trees, l, i, j)
    requires forall t :: t in ts ==> IsTree(z, t, l[0], i, j) && t.Node? && !Repeats(z.g, t)
    ensures NoTwin(ts + trees) && OfOthers(z, ts + trees, l[1..], i, j)
  {
    hide Compiled;
    OthersFewer(z, trees, l, i, j);
    var rest := l[1..];
    assert forall s :: 0 <= s < |rest| ==> rest[s] == l[s + 1];
    forall t, s | t in ts && 0 <= s < |rest|
      ensures !IsTree(z, t, rest[s], i, j)
    {
      if IsTree(z, t, rest[s], i, j) {
        TreeTells(z.g, z.x, z.dots, t, l[0], i, rest[s], i, j);
        NoRepeatBelow(z.g, t);
      }
    }
    hide IsTree;
    forall a, b | 0 <= a < |ts| && 0 <= b < |trees|
      ensures ts[a] != trees[b]
    {
      assert IsTree(z, ts[a], l[0], i, j);
      assert trees[b] in trees;
    }
  }

  /** A nonterminal, by its number, and a span. */
  datatype Query = Query(nt: nat, i: nat, j: nat)

  ghost predicate SpanParse(z: Charts, w: Query, t: Tree)
    requires w.nt < |z.x.p.nts|
  {
    IsParse(z.g, z.x.toks, t, z.x.p.nts[w.nt], w.i, w.j)
  }

  /** The second chart keeps every ender of the nonterminal that has a tree over the span. */
  ghost predicate Asked(z: Charts, w: Query) {
    && Ready(z) && w.nt < |z.x.p.nts| && w.nt < |z.x.p.enders| && w.i <= w.j < |z.x.states|
    && forall e, t :: e in z.x.p.enders[w.nt] && IsTree(z, t, e, w.i, w.j) ==> Held(z, e, w.i, w.j) && Begun(z, e, w.i)
  }

  lemma AskedParts(z: Charts, w: Query)
    requires Asked(z, w)
    ensures Ready(z) && w.nt < |z.x.p.nts| && w.nt < |z.x.p.enders| && w.i <= w.j < |z.x.states|
  {}

  lemma AskedHeld(z: Charts, w: Query, e: int, t: Tree)
    requires Asked(z, w) && e in z.x.p.enders[w.nt] && IsTree(z, t, e, w.i, w.j)
    ensures Held(z, e, w.i, w.j) && Begun(z, e, w.i)
  {}

  /** The goal over the whole input. */
  ghost function Whole(z: Charts): Query {
    Query(0, 0, |z.x.toks|)
  }

  lemma WholeAsked(z: Charts)
    requires Ready(z) && |z.x.p.nts| > 0
    ensures Asked(z, Whole(z)) && Whole(z) == Query(0, 0, |z.x.toks|)
  {
    var l := z.x.p.enders[0];
    assert |z.m| == |z.x.toks| + 1;
    forall e, t | e in l && IsTree(z, t, e, 0, |z.x.toks|)
      ensures Held(z, e, 0, |z.x.toks|) && Begun(z, e, 0)
    {
      assert ListsOk(z.x.p, z.dots, 0);
      GoalEnderHeld(z, e, t);
    }
  }

  lemma GoalEnderHeld(z: Charts, e: int, t: Tree)
    requires Ready(z) && |z.x.p.nts| > 0 && |z.x.p.enders| > 0 && e in z.x.p.enders[0] && 0 <= e < |z.dots|
    requires IsTree(z, t, e, 0, |z.x.toks|)
    ensures Held(z, e, 0, |z.x.toks|) && Begun(z, e, 0)
  {
    assert ListsOk(z.x.p, z.dots, 0);
    hide IsTree;
    EnderCharted(z, t, 0, e, 0, |z.x.toks|);
    assert EarleyFilter.GoalKept(z.x.p, z.chart, z.m);
  }

  /** What `deriv_trees*` answers, cut off at this depth. */
  ghost function SpanTrees(z: Charts, w: Query, fuel: nat): Option<seq<Tree>>
    requires Asked(z, w)
  {
    SpanRange(z, w);
    TreesOf(z.x, z.x.p.enders[w.nt], w.i, w.j, [], fuel)
  }

  lemma SpanRange(z: Charts, w: Query)
    requires Asked(z, w)
    ensures InRange(z.x.p) && w.i <= w.j < |z.x.states| && w.nt < |z.x.p.enders|
    ensures Within(z.x.p.enders[w.nt], |z.x.p.steps|) && AllEnd(z.x.p, z.x.p.enders[w.nt]) && Distinct(z.x.p.enders[w.nt])
    ensures forall s :: 0 <= s < |z.x.p.enders[w.nt]| ==> z.x.p.steps[z.x.p.enders[w.nt][s]] == w.nt - |z.x.p.nts|
  {
    assert ListsOk(z.x.p, z.dots, w.nt);
    var l := z.x.p.enders[w.nt];
    forall s | 0 <= s < |l|
      ensures 0 <= l[s] < |z.x.p.steps| && z.x.p.steps[l[s]] == w.nt - |z.x.p.nts|
    {
      assert l[s] in l;
    }
  }

  /** A parse is a tree of a kept ender. */
  lemma SpanParseHeld(z: Charts, w: Query, t: Tree) returns (e: int)
    requires Asked(z, w) && SpanParse(z, w, t)
    ensures e in z.x.p.enders[w.nt] && 0 <= e < |z.dots|
    ensures IsTree(z, t, e, w.i, w.j) && Held(z, e, w.i, w.j) && Begun(z, e, w.i)
  {
    hide *;
    AskedParts(z, w);
    SpanIs(z, w, t);
    e := ParseEnder(z.g, z.x, z.dots, w.nt, t, w.i, w.j);
    IsTreeIntro(z, t, e, w.i, w.j);
    AskedHeld(z, w, e, t);
  }

  lemma SpanIs(z: Charts, w: Query, t: Tree)
    requires Asked(z, w) && SpanParse(z, w, t)
    ensures Compiled(z.g, z.x.p, z.dots) && IsParse(z.g, z.x.toks, t, z.x.p.nts[w.nt], w.i, w.j) && w.nt < |z.x.p.enders|
  {
    hide IsParse;
  }

  /** `deriv_trees*` lists exactly the parses. */
  lemma ListsParses(z: Charts, w: Query, fuel: nat)
    requires Asked(z, w) && SpanTrees(z, w, fuel).Some?
    ensures forall t :: t in SpanTrees(z, w, fuel).value <==> SpanParse(z, w, t)
  {
    hide *;
    AskedParts(z, w);
    SpanUnfold(z, w, fuel);
    var l := z.x.p.enders[w.nt];
    forall t
      ensures t in SpanTrees(z, w, fuel).value <==> SpanParse(z, w, t)
    {
      TreesOfHas(z.x, l, w.i, w.j, [], fuel, t);
      if SpanParse(z, w, t) {
        var e := SpanParseHeld(z, w, t);
        SpanListed(z, w, e, fuel, t);
      }
      if ListedFor(z.x, l, w.i, w.j, fuel, t) {
        ListedParses(z, w, fuel, t);
      }
    }
  }

  /** It lists each of them once, when none uses an alternative that is given twice. */
  lemma ListsOnce(z: Charts, w: Query, fuel: nat)
    requires Asked(z, w) && SpanTrees(z, w, fuel).Some? && forall t :: SpanParse(z, w, t) ==> !Repeats(z.g, t)
    ensures NoTwin(SpanTrees(z, w, fuel).value)
  {
    hide *;
    AskedParts(z, w);
    SpanRange(z, w);
    SpanUnfold(z, w, fuel);
    SpanClean(z, w);
    NoOthers(z, z.x.p.enders[w.nt], w.i, w.j);
    TreesOfOnce(z, z.x.p.enders[w.nt], w.i, w.j, [], fuel);
  }

  lemma SpanClean(z: Charts, w: Query)
    requires Asked(z, w) && w.nt < |z.x.p.enders| && forall t :: SpanParse(z, w, t) ==> !Repeats(z.g, t)
    ensures CleanEnders(z, z.x.p.enders[w.nt], w.i, w.j)
  {
    var l, i, j := z.x.p.enders[w.nt], w.i, w.j;
    SpanRange(z, w);
    ReadyRange(z);
    hide Ready;
    hide Compiled;
    hide Repeats;
    forall s, t | 0 <= s < |l| && IsTree(z, t, l[s], i, j)
      ensures !Repeats(z.g, t)
    {
      EnderTree(z.g, z.x, z.dots, l[s], i, j, t);
      assert SpanParse(z, w, t);
    }
  }

  lemma SpanUnfold(z: Charts, w: Query, fuel: nat)
    requires Asked(z, w)
    ensures InRange(z.x.p) && w.j < |z.x.states| && w.nt < |z.x.p.enders| && Within(z.x.p.enders[w.nt], |z.x.p.steps|)
    ensures SpanTrees(z, w, fuel) == TreesOf(z.x, z.x.p.enders[w.nt], w.i, w.j, [], fuel)
  {
    SpanRange(z, w);
    hide TreesOf;
  }

  lemma NoOthers(z: Charts, l: seq<int>, i: int, j: int)
    ensures OfOthers(z, [], l, i, j) && NoTwin([])
  {}

  lemma SpanListed(z: Charts, w: Query, e: int, fuel: nat, t: Tree)
    requires Asked(z, w) && InRange(z.x.p) && w.j < |z.x.states|
    requires w.nt < |z.x.p.enders| && Within(z.x.p.enders[w.nt], |z.x.p.steps|)
    requires AllListed(z.x, z.x.p.enders[w.nt], w.i, w.j, fuel)
    requires e in z.x.p.enders[w.nt] && 0 <= e < |z.dots|
    requires IsTree(z, t, e, w.i, w.j) && Held(z, e, w.i, w.j) && Begun(z, e, w.i)
    ensures ListedFor(z.x, z.x.p.enders[w.nt], w.i, w.j, fuel, t)
  {
    var l, i, j := z.x.p.enders[w.nt], w.i, w.j;
    var s :| 0 <= s < |l| && l[s] == e;
    HeldHolds(z, e, i, j);
    hide *;
    ReadyRange(z);
    ListedAt(z.x, l, i, j, fuel, s);
    TreeListed(z, e, i, j, fuel, t);
    ListedForIntro(z.x, l, i, j, fuel, s, t);
  }

  lemma HeldHolds(z: Charts, c: int, i: int, j: int)
    requires Ready(z) && Held(z, c, i, j)
    ensures |z.x.states| == |z.m| && Holds(z.x, c, i, j)
  {}

  lemma ListedAt(x: Source, l: seq<int>, i: nat, j: nat, fuel: nat, s: nat)
    requires InRange(x.p) && j < |x.states| && Within(l, |x.p.steps|) && AllListed(x, l, i, j, fuel)
    requires s < |l| && Holds(x, l[s], i, j)
    ensures 0 <= l[s] < |x.p.steps| && DerivTrees(x, l[s], i, j, fuel).Some?
  {
    hide DerivTrees;
  }

  lemma ListedForIntro(x: Source, l: seq<int>, i: nat, j: nat, fuel: nat, s: nat, t: Tree)
    requires InRange(x.p) && j < |x.states| && Within(l, |x.p.steps|) && s < |l| && 0 <= l[s] < |x.p.steps|
    requires Holds(x, l[s], i, j) && DerivTrees(x, l[s], i, j, fuel).Some? && t in DerivTrees(x, l[s], i, j, fuel).value
    ensures ListedFor(x, l, i, j, fuel, t)
  {
    hide DerivTrees;
    hide Holds;
  }

  lemma ListedForEnder(x: Source, l: seq<int>, i: nat, j: nat, fuel: nat, t: Tree) returns (s: nat)
    requires InRange(x.p) && j < |x.states| && Within(l, |x.p.steps|) && ListedFor(x, l, i, j, fuel, t)
    ensures s < |l| && 0 <= l[s] < |x.p.steps| && Holds(x, l[s], i, j)
    ensures DerivTrees(x, l[s], i, j, fuel).Some? && t in DerivTrees(x, l[s], i, j, fuel).value
  {
    hide DerivTrees;
    hide Holds;
    s :| 0 <= s < |l| && Holds(x, l[s], i, j) && DerivTrees(x, l[s], i, j, fuel).Some?
      && t in DerivTrees(x, l[s], i, j, fuel).value;
  }

  lemma ListedParses(z: Charts, w: Query, fuel: nat, t: Tree)
    requires Asked(z, w) && InRange(z.x.p) && w.j < |z.x.states|
    requires w.nt < |z.x.p.enders| && Within(z.x.p.enders[w.nt], |z.x.p.steps|)
    requires ListedFor(z.x, z.x.p.enders[w.nt], w.i, w.j, fuel, t)
    ensures w.nt < |z.x.p.nts| && SpanParse(z, w, t)
  {
    hide *;
    AskedParts(z, w);
    SpanRange(z, w);
    ReadyRange(z);
    var s := ListedForEnder(z.x, z.x.p.enders[w.nt], w.i, w.j, fuel, t);
    var e := z.x.p.enders[w.nt][s];
    ListedIsTree(z, e, w.i, w.j, fuel, t);
    IsTreeItem(z, t, e, w.i, w.j);
    EnderTree(z.g, z.x, z.dots, e, w.i, w.j, t);
    SpanParseIntro(z, w, t);
  }

  lemma SpanParseIntro(z: Charts, w: Query, t: Tree)
    requires w.nt < |z.x.p.nts| && IsParse(z.g, z.x.toks, t, z.x.p.nts[w.nt], w.i, w.j)
    ensures SpanParse(z, w, t)
  {}

  // ---- when it ends

  ghost predicate Bounded(z: Charts, w: Query, n: nat)
    requires w.nt < |z.x.p.nts|
  {
    forall t :: SpanParse(z, w, t) ==> Size(t) <= n
  }

  ghost function LargestSize(ts: seq<Tree>): nat {
    if ts == [] then 0
    else
      var rest := LargestSize(ts[1..]);
      if Size(ts[0]) > rest then Size(ts[0]) else rest
  }

  lemma {:induction false} LargestBounds(ts: seq<Tree>, t: Tree)
    requires t in ts
    ensures Size(t) <= LargestSize(ts)
    decreases |ts|
  {
    if t != ts[0] {
      LargestBounds(ts[1..], t);
    }
  }

  /** The enumeration is not cut off at a depth that no parse's size reaches. */
  lemma EndsWhenBounded(z: Charts, w: Query, n: nat, fuel: nat)
    requires Asked(z, w) && Bounded(z, w, n) && fuel > n
    ensures SpanTrees(z, w, fuel).Some?
  {
    hide *;
    AskedParts(z, w);
    SpanRange(z, w);
    SpanUnfold(z, w, fuel);
    var l := z.x.p.enders[w.nt];
    if SpanTrees(z, w, fuel).None? {
      TreesOfHas(z.x, l, w.i, w.j, [], fuel, Leaf(""));
      var s := NotListed(z.x, l, w.i, w.j, fuel);
      var t := UnlistedTall(z, w, l[s], fuel, s);
      BoundedAt(z, w, n, t);
    }
  }

  lemma BoundedAt(z: Charts, w: Query, n: nat, t: Tree)
    requires w.nt < |z.x.p.nts| && Bounded(z, w, n) && SpanParse(z, w, t)
    ensures Size(t) <= n
  {
    hide Size;
    hide SpanParse;
  }

  lemma NotListed(x: Source, l: seq<int>, i: nat, j: nat, fuel: nat) returns (s: nat)
    requires InRange(x.p) && j < |x.states| && Within(l, |x.p.steps|) && !AllListed(x, l, i, j, fuel)
    ensures s < |l| && 0 <= l[s] < |x.p.steps| && Holds(x, l[s], i, j) && DerivTrees(x, l[s], i, j, fuel).None?
  {
    hide DerivTrees;
    hide Holds;
    s :| 0 <= s < |l| && Holds(x, l[s], i, j) && DerivTrees(x, l[s], i, j, fuel).None?;
  }

  lemma UnlistedTall(z: Charts, w: Query, e: int, fuel: nat, s: nat) returns (t: Tree)
    requires Asked(z, w) && InRange(z.x.p) && w.j < |z.x.states|
    requires w.nt < |z.x.p.enders| && s < |z.x.p.enders[w.nt]| && z.x.p.enders[w.nt][s] == e && 0 <= e < |z.x.p.steps|
    requires Holds(z.x, e, w.i, w.j) && DerivTrees(z.x, e, w.i, w.j, fuel).None?
    ensures SpanParse(z, w, t) && Size(t) >= fuel
  {
    SpanRange(z, w);
    AskedParts(z, w);
    hide Asked;
    ReadyParts(z, e, w.j);
    hide Ready;
    hide InRange;
    hide Size;
    hide DerivTrees;
    HeldTrue(z.g, z.x, z.dots, e, w.i, w.j);
    hide Holds;
    hide ChartTrue;
    hide Compiled;
    t := CutOffIsTall(z.g, z.x, z.dots, e, w.i, w.j, fuel);
    EnderTree(z.g, z.x, z.dots, e, w.i, w.j, t);
  }

  /** The enumeration ends, at some depth, exactly when the parses are of bounded size. */
  lemma EndsExactly(z: Charts, w: Query)
    requires Asked(z, w)
    ensures (exists fuel: nat :: SpanTrees(z, w, fuel).Some?) <==> exists n: nat :: Bounded(z, w, n)
  {
    hide *;
    AskedParts(z, w);
    if fuel: nat :| SpanTrees(z, w, fuel).Some? {
      ListsParses(z, w, fuel);
      LargestIsBound(z, w, SpanTrees(z, w, fuel).value);
    }
    if n: nat :| Bounded(z, w, n) {
      EndsWhenBounded(z, w, n, n + 1);
    }
  }

  lemma LargestIsBound(z: Charts, w: Query, ts: seq<Tree>)
    requires w.nt < |z.x.p.nts| && forall t :: t in ts <==> SpanParse(z, w, t)
    ensures Bounded(z, w, LargestSize(ts))
  {
    hide Size;
    hide SpanParse;
    hide LargestSize;
    forall t | SpanParse(z, w, t)
      ensures Size(t) <= LargestSize(ts)
    {
      LargestBounds(ts, t);
    }
  }
}
