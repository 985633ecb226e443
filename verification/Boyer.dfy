/** The Boyer rewriter: one-way unification, rewriting by equations, and the decision of if-terms. */
module Boyer {
  import opened Options

  /** A term: a variable, a number, or a function symbol applied to arguments. */
  datatype Term = Var(name: string) | Num(n: int) | App(f: string, args: seq<Term>)

  const TRUE_TERM := App("t", [])
  const FALSE_TERM := App("f", [])

  /** An association list, searched from the front. */
  type Alist = seq<(Term, Term)>

  /** An equation, used from left to right. */
  datatype Rule = Rule(lhs: Term, rhs: Term)

  // ---- equality

  /** `is_term_equal` */
  function IsTermEqual(x: Term, y: Term): (equal: bool)
    decreases x
  {
    if x.App? then
      if y.App? then x.f == y.f && AreTermsEqual(x.args, y.args) else false
    else x == y
  }

  function AreTermsEqual(xs: seq<Term>, ys: seq<Term>): (equal: bool)
    decreases xs
  {
    if xs == [] then ys == []
    else if ys == [] then false
    else IsTermEqual(xs[0], ys[0]) && AreTermsEqual(xs[1..], ys[1..])
  }

  /** The walk over two terms decides whether they are the same. */
  lemma {:induction false} EqualTerms(x: Term, y: Term)
    ensures IsTermEqual(x, y) <==> x == y
    decreases x
  {
    if x.App? && y.App? {
      EqualArgs(x.args, y.args);
    }
  }

  lemma {:induction false} EqualArgs(xs: seq<Term>, ys: seq<Term>)
    ensures AreTermsEqual(xs, ys) <==> xs == ys
    decreases xs
  {
    if xs != [] && ys != [] {
      EqualTerms(xs[0], ys[0]);
      EqualArgs(xs[1..], ys[1..]);
      assert xs == [xs[0]] + xs[1..] && ys == [ys[0]] + ys[1..];
    }
  }

  /** `is_term_member` */
  function IsTermMember(x: Term, lst: seq<Term>): (member: bool) {
    if lst == [] then false else IsTermEqual(x, lst[0]) || IsTermMember(x, lst[1..])
  }

  lemma {:induction false} MemberIn(x: Term, lst: seq<Term>)
    ensures IsTermMember(x, lst) <==> x in lst
  {
    if lst != [] {
      EqualTerms(x, lst[0]);
      MemberIn(x, lst[1..]);
    }
  }

  // ---- substitutions

  /** `sc_assq` */
  function Assq(key: Term, alist: Alist): Option<Term> {
    if alist == [] then None
    else if alist[0].0 == key then Some(alist[0].1)
    else Assq(key, alist[1..])
  }

  /** `apply_subst` */
  function ApplySubst(alist: Alist, term: Term): Term
    decreases term
  {
    match term
    case App(f, args) => App(f, ApplySubstAll(alist, args))
    case _ =>
      match Assq(term, alist)
      case Some(t) => t
      case None => term
  }

  function ApplySubstAll(alist: Alist, lst: seq<Term>): (r: seq<Term>)
    ensures |r| == |lst|
    decreases lst
  {
    if lst == [] then [] else [ApplySubst(alist, lst[0])] + ApplySubstAll(alist, lst[1..])
  }

  /** Only variables are bound. */
  ghost predicate BindsVars(alist: Alist) {
    forall k :: 0 <= k < |alist| ==> alist[k].0.Var?
  }

  /** The later list binds what the earlier one does, to the same terms. */
  ghost predicate Extends(later: Alist, earlier: Alist) {
    forall key :: Assq(key, earlier).Some? ==> Assq(key, later) == Assq(key, earlier)
  }

  /** Every variable of the term is bound. */
  ghost predicate Covers(alist: Alist, term: Term)
    decreases term
  {
    match term
    case Var(_) => Assq(term, alist).Some?
    case Num(_) => true
    case App(_, args) => CoversAll(alist, args)
  }

  ghost predicate CoversAll(alist: Alist, lst: seq<Term>)
    decreases lst
  {
    lst == [] || (Covers(alist, lst[0]) && CoversAll(alist, lst[1..]))
  }

  lemma {:induction false} NumbersUnbound(alist: Alist, n: int)
    requires BindsVars(alist)
    ensures Assq(Num(n), alist).None?
  {
    if alist != [] {
      NumbersUnbound(alist[1..], n);
    }
  }

  /** More bindings do not change a term that was covered. */
  lemma {:induction false} CoveredSame(later: Alist, earlier: Alist, term: Term)
    requires Extends(later, earlier) && Covers(earlier, term) && BindsVars(later) && BindsVars(earlier)
    ensures Covers(later, term) && ApplySubst(later, term) == ApplySubst(earlier, term)
    decreases term
  {
    match term
    case Var(_) =>
    case Num(n) =>
      NumbersUnbound(later, n);
      NumbersUnbound(earlier, n);
    case App(_, args) =>
      CoveredSameAll(later, earlier, args);
  }

  lemma {:induction false} CoveredSameAll(later: Alist, earlier: Alist, lst: seq<Term>)
    requires Extends(later, earlier) && CoversAll(earlier, lst) && BindsVars(later) && BindsVars(earlier)
    ensures CoversAll(later, lst) && ApplySubstAll(later, lst) == ApplySubstAll(earlier, lst)
    decreases lst
  {
    if lst != [] {
      CoveredSame(later, earlier, lst[0]);
      CoveredSameAll(later, earlier, lst[1..]);
    }
  }

  /** What a successful match has established: the substitution makes the pattern the term. */
  ghost predicate Matched(alist: Alist, pattern: Term, term: Term) {
    Covers(alist, pattern) && ApplySubst(alist, pattern) == term
  }

  ghost predicate MatchedAll(alist: Alist, patterns: seq<Term>, terms: seq<Term>) {
    CoversAll(alist, patterns) && ApplySubstAll(alist, patterns) == terms
  }

  // ---- equality by the lemmas

  type Lemmas = map<string, seq<Rule>>

  ghost predicate IsLemma(lemmas: Lemmas, rule: Rule) {
    exists f :: f in lemmas && rule in lemmas[f]
  }

  /** `s` and `t` are the two sides of one instance of a lemma. */
  ghost predicate IsInstance(lemmas: Lemmas, s: Term, t: Term) {
    exists rule, alist :: IsLemma(lemmas, rule) && BindsVars(alist)
      && s == ApplySubst(alist, rule.lhs) && t == ApplySubst(alist, rule.rhs)
  }

  /** `s` and `t` are equal by instances of lemmas, in at most `h` nested steps. */
  ghost predicate Equal(lemmas: Lemmas, s: Term, t: Term, h: nat)
    decreases h, 1
  {
    s == t || IsInstance(lemmas, s, t)
    || (h > 0 && (InTwoSteps(lemmas, s, t, h - 1) || Inside(lemmas, s, t, h - 1)))
  }

  ghost predicate InTwoSteps(lemmas: Lemmas, s: Term, t: Term, h: nat)
    decreases h, 3
  {
    exists u :: Through(lemmas, s, u, t, h)
  }

  ghost predicate Through(lemmas: Lemmas, s: Term, u: Term, t: Term, h: nat)
    decreases h, 2
  {
    Equal(lemmas, s, u, h) && Equal(lemmas, u, t, h)
  }

  ghost predicate Inside(lemmas: Lemmas, s: Term, t: Term, h: nat)
    decreases h, 2
  {
    s.App? && t.App? && s.f == t.f && |s.args| == |t.args|
    && forall k :: 0 <= k < |s.args| ==> Equal(lemmas, s.args[k], t.args[k], h)
  }

  ghost predicate Convertible(lemmas: Lemmas, s: Term, t: Term) {
    exists h: nat :: Equal(lemmas, s, t, h)
  }

  lemma MiddleTerm(lemmas: Lemmas, s: Term, t: Term, h: nat) returns (u: Term)
    requires InTwoSteps(lemmas, s, t, h)
    ensures Through(lemmas, s, u, t, h)
  {
    u :| Through(lemmas, s, u, t, h);
  }

  lemma {:induction false} EqualHigher(lemmas: Lemmas, s: Term, t: Term, h: nat, h': nat)
    requires Equal(lemmas, s, t, h) && h <= h'
    ensures Equal(lemmas, s, t, h')
    decreases h
  {
    if s != t && !IsInstance(lemmas, s, t) {
      hide IsInstance;
      var g := h - 1;
      if InTwoSteps(lemmas, s, t, g) {
        var u := MiddleTerm(lemmas, s, t, g);
        EqualHigher(lemmas, s, u, h - 1, h' - 1);
        EqualHigher(lemmas, u, t, h - 1, h' - 1);
        assert Through(lemmas, s, u, t, h' - 1);
      } else {
        forall k | 0 <= k < |s.args|
          ensures Equal(lemmas, s.args[k], t.args[k], h' - 1)
        {
          EqualHigher(lemmas, s.args[k], t.args[k], h - 1, h' - 1);
        }
        assert Inside(lemmas, s, t, h' - 1);
      }
    }
  }

  lemma ConvertibleRefl(lemmas: Lemmas, s: Term)
    ensures Convertible(lemmas, s, s)
  {
    assert Equal(lemmas, s, s, 0);
  }

  lemma ConvertibleTrans(lemmas: Lemmas, s: Term, u: Term, t: Term)
    requires Convertible(lemmas, s, u) && Convertible(lemmas, u, t)
    ensures Convertible(lemmas, s, t)
  {
    var h: nat :| Equal(lemmas, s, u, h);
    var k: nat :| Equal(lemmas, u, t, k);
    EqualHigher(lemmas, s, u, h, h + k);
    EqualHigher(lemmas, u, t, k, h + k);
    assert Through(lemmas, s, u, t, h + k);
    assert Equal(lemmas, s, t, h + k + 1);
  }

  lemma ConvertibleInstance(lemmas: Lemmas, rule: Rule, alist: Alist)
    requires IsLemma(lemmas, rule) && BindsVars(alist)
    ensures Convertible(lemmas, ApplySubst(alist, rule.lhs), ApplySubst(alist, rule.rhs))
  {
    assert IsInstance(lemmas, ApplySubst(alist, rule.lhs), ApplySubst(alist, rule.rhs));
    assert Equal(lemmas, ApplySubst(alist, rule.lhs), ApplySubst(alist, rule.rhs), 0);
  }

  ghost predicate AllConvertible(lemmas: Lemmas, ss: seq<Term>, ts: seq<Term>) {
    |ss| == |ts| && forall k :: 0 <= k < |ss| ==> Convertible(lemmas, ss[k], ts[k])
  }

  /** One height for all arguments. */
  lemma {:induction false} CommonHeight(lemmas: Lemmas, ss: seq<Term>, ts: seq<Term>) returns (h: nat)
    requires AllConvertible(lemmas, ss, ts)
    ensures forall k :: 0 <= k < |ss| ==> Equal(lemmas, ss[k], ts[k], h)
  {
    if ss == [] {
      h := 0;
    } else {
      var last := |ss| - 1;
      var g := CommonHeight(lemmas, ss[..last], ts[..last]);
      assert Convertible(lemmas, ss[last], ts[last]);
      var l: nat :| Equal(lemmas, ss[last], ts[last], l);
      h := g + l;
      forall k | 0 <= k < |ss|
        ensures Equal(lemmas, ss[k], ts[k], h)
      {
        if k < last {
          assert Equal(lemmas, ss[..last][k], ts[..last][k], g);
          EqualHigher(lemmas, ss[k], ts[k], g, h);
        } else {
          EqualHigher(lemmas, ss[k], ts[k], l, h);
        }
      }
    }
  }

  lemma ConvertibleArgs(lemmas: Lemmas, f: string, ss: seq<Term>, ts: seq<Term>)
    requires AllConvertible(lemmas, ss, ts)
    ensures Convertible(lemmas, App(f, ss), App(f, ts))
  {
    var h := CommonHeight(lemmas, ss, ts);
    assert Inside(lemmas, App(f, ss), App(f, ts), h);
    assert Equal(lemmas, App(f, ss), App(f, ts), h + 1);
  }

  // ---- normal forms

  /** No lemma of the head symbol matches the term. */
  ghost predicate NoMatch(lemmas: Lemmas, term: Term)
    requires term.App?
  {
    term.f in lemmas ==> forall k :: 0 <= k < |lemmas[term.f]| ==> Unmatched(lemmas[term.f][k].lhs, term)
  }

  ghost predicate Unmatched(lhs: Term, term: Term) {
    forall s :: BindsVars(s) ==> !Matched(s, lhs, term)
  }

  /** No lemma matches anywhere in the term. */
  ghost predicate IsNormal(lemmas: Lemmas, term: Term)
    decreases term
  {
    term.App? ==> NoMatch(lemmas, term) && AreNormal(lemmas, term.args)
  }

  ghost predicate AreNormal(lemmas: Lemmas, lst: seq<Term>)
    decreases lst
  {
    lst == [] || (IsNormal(lemmas, lst[0]) && AreNormal(lemmas, lst[1..]))
  }

  /** Every lemma is filed under the symbol at the head of its left side. */
  ghost predicate ByHead(lemmas: Lemmas) {
    forall f, rule :: f in lemmas && rule in lemmas[f] ==> rule.lhs.App? && rule.lhs.f == f
  }

  /** `s` stands somewhere in `t`. */
  ghost predicate SubTerm(s: Term, t: Term)
    decreases t
  {
    s == t || (t.App? && SubTermOfOne(s, t.args))
  }

  ghost predicate SubTermOfOne(s: Term, lst: seq<Term>)
    decreases lst
  {
    lst != [] && (SubTerm(s, lst[0]) || SubTermOfOne(s, lst[1..]))
  }

  /** No lemma of the whole set matches the term. */
  ghost predicate Unmatchable(lemmas: Lemmas, s: Term) {
    forall rule, alist :: IsLemma(lemmas, rule) && BindsVars(alist) ==> !Matched(alist, rule.lhs, s)
  }

  /** When lemmas are filed by their heads, looking them up by the head misses none. */
  lemma HeadsSuffice(lemmas: Lemmas, s: Term)
    requires ByHead(lemmas)
    ensures Unmatchable(lemmas, s) <==> (s.App? ==> NoMatch(lemmas, s))
  {
    if s.App? && Unmatchable(lemmas, s) && s.f in lemmas {
      forall k, alist | 0 <= k < |lemmas[s.f]| && BindsVars(alist)
        ensures !Matched(alist, lemmas[s.f][k].lhs, s)
      {
        assert IsLemma(lemmas, lemmas[s.f][k]);
      }
    }
    if s.App? ==> NoMatch(lemmas, s) {
      forall rule, alist | IsLemma(lemmas, rule) && BindsVars(alist)
        ensures !Matched(alist, rule.lhs, s)
      {
        var f :| f in lemmas && rule in lemmas[f];
        var k :| 0 <= k < |lemmas[f]| && lemmas[f][k] == rule;
        assert s.App? && s.f == f ==> Unmatched(lemmas[f][k].lhs, s);
      }
    }
  }

  /** So a term is normal if and only if no lemma of the whole set matches anywhere in it. */
  lemma {:induction false} NormalEverywhere(lemmas: Lemmas, t: Term)
    requires ByHead(lemmas)
    ensures IsNormal(lemmas, t) <==> forall s :: SubTerm(s, t) ==> Unmatchable(lemmas, s)
    decreases t
  {
    hide Unmatchable;
    hide NoMatch;
    HeadsSuffice(lemmas, t);
    if t.App? {
      NormalEverywhereAll(lemmas, t.args);
    }
  }

  lemma {:induction false} NormalEverywhereAll(lemmas: Lemmas, lst: seq<Term>)
    requires ByHead(lemmas)
    ensures AreNormal(lemmas, lst) <==> forall s :: SubTermOfOne(s, lst) ==> Unmatchable(lemmas, s)
    decreases lst
  {
    hide Unmatchable;
    hide NoMatch;
    if lst != [] {
      NormalEverywhere(lemmas, lst[0]);
      NormalEverywhereAll(lemmas, lst[1..]);
    }
  }

  // ---- rewriting as a function

  /** The bindings that matching adds, if it succeeds. */
  ghost function Unify(term1: Term, term2: Term, alist: Alist): Option<Alist>
    decreases term2
  {
    if !term2.App? then
      match Assq(term2, alist)
      case Some(t) => if term1 == t then Some(alist) else None
      case None =>
        if term2.Var? then Some([(term2, term1)] + alist) else if term1 == term2 then Some(alist) else None
    else if !term1.App? || term1.f != term2.f then None
    else UnifyAll(term1.args, term2.args, alist)
  }

  ghost function UnifyAll(terms: seq<Term>, patterns: seq<Term>, alist: Alist): Option<Alist>
    decreases patterns
  {
    if terms == [] || patterns == [] then if terms == [] && patterns == [] then Some(alist) else None
    else
      match Unify(terms[0], patterns[0], alist)
      case None => None
      case Some(more) => UnifyAll(terms[1..], patterns[1..], more)
  }

  /** A match makes the pattern the term and keeps the bindings; it is found whenever any substitution would do, and
      is the least of them. */
  lemma {:induction false} UnifyMeets(term1: Term, term2: Term, alist: Alist)
    requires BindsVars(alist)
    ensures var r := Unify(term1, term2, alist);
      && (r.Some? ==> BindsVars(r.value) && Extends(r.value, alist) && Matched(r.value, term2, term1))
      && forall s :: BindsVars(s) && Extends(s, alist) && Matched(s, term2, term1) ==> r.Some? && Extends(s, r.value)
    decreases term2, 1
  {
    if term2.Num? {
      forall s | BindsVars(s)
        ensures Assq(term2, s).None?
      {
        NumbersUnbound(s, term2.n);
      }
    } else if term2.App? && term1.App? && term1.f == term2.f {
      UnifyAllMeets(term1.args, term2.args, alist);
    }
  }

  lemma {:induction false} UnifyAllMeets(terms: seq<Term>, patterns: seq<Term>, alist: Alist)
    requires BindsVars(alist)
    ensures var r := UnifyAll(terms, patterns, alist);
      && (r.Some? ==> BindsVars(r.value) && Extends(r.value, alist) && MatchedAll(r.value, patterns, terms))
      && forall s :: BindsVars(s) && Extends(s, alist) && MatchedAll(s, patterns, terms) ==> r.Some? && Extends(s, r.value)
    decreases patterns, 0
  {
    if terms != [] && patterns != [] {
      UnifyMeets(terms[0], patterns[0], alist);
      var first := Unify(terms[0], patterns[0], alist);
      assert patterns == [patterns[0]] + patterns[1..] && terms == [terms[0]] + terms[1..];
      forall s | MatchedAll(s, patterns, terms)
        ensures Matched(s, patterns[0], terms[0]) && MatchedAll(s, patterns[1..], terms[1..])
      {
        assert ApplySubstAll(s, patterns) == [ApplySubst(s, patterns[0])] + ApplySubstAll(s, patterns[1..]);
      }
      if first.Some? {
        UnifyAllMeets(terms[1..], patterns[1..], first.value);
        var r := UnifyAll(terms[1..], patterns[1..], first.value);
        if r.Some? {
          CoveredSame(r.value, first.value, patterns[0]);
        }
      }
    }
  }

  /** The first lemma that matches, instantiated. */
  ghost function FirstMatch(lst: seq<Rule>, term: Term): Option<Term> {
    if lst == [] then None
    else
      match Unify(term, lst[0].lhs, [])
      case Some(alist) => Some(ApplySubst(alist, lst[0].rhs))
      case None => FirstMatch(lst[1..], term)
  }

  /** What a rewriting comes to, and how many calls of `rewrite` it takes. */
  datatype Outcome<T> = Outcome(result: Option<T>, count: nat)

  ghost function Rules(lemmas: Lemmas, term: Term): seq<Rule>
    requires term.App?
  {
    if term.f in lemmas then lemmas[term.f] else []
  }

  ghost function Rewritten(lemmas: Lemmas, term: Term, fuel: nat): Outcome<Term>
    decreases fuel, term, 1
  {
    if !term.App? then Outcome(Some(term), 1)
    else
      var args := RewrittenArgs(lemmas, term.args, fuel);
      if args.result.None? then Outcome(None, 1 + args.count)
      else
        var inner := App(term.f, args.result.value);
        var next := FirstMatch(Rules(lemmas, term), inner);
        if next.None? then Outcome(Some(inner), 1 + args.count)
        else if fuel == 0 then Outcome(None, 1 + args.count)
        else
          var last := Rewritten(lemmas, next.value, fuel - 1);
          Outcome(last.result, 1 + args.count + last.count)
  }

  ghost function RewrittenArgs(lemmas: Lemmas, lst: seq<Term>, fuel: nat): Outcome<seq<Term>>
    decreases fuel, lst, 0
  {
    if lst == [] then Outcome(Some([]), 0)
    else
      var first := Rewritten(lemmas, lst[0], fuel);
      if first.result.None? then Outcome(None, first.count)
      else
        var rest := RewrittenArgs(lemmas, lst[1..], fuel);
        if rest.result.None? then Outcome(None, first.count + rest.count)
        else Outcome(Some([first.result.value] + rest.result.value), first.count + rest.count)
  }

  // ---- what is counted

  /** The subterms of a term. */
  ghost function Nodes(term: Term): (n: nat)
    ensures n > 0
    decreases term
  {
    if term.App? then 1 + NodesAll(term.args) else 1
  }

  ghost function NodesAll(lst: seq<Term>): nat
    decreases lst
  {
    if lst == [] then 0 else Nodes(lst[0]) + NodesAll(lst[1..])
  }

  /** A term in place of which an instance was put: of which lemma of its symbol, and by which substitution. */
  datatype Use = Use(redex: Term, index: nat, bindings: Alist)

  /** The first lemma that matches, by the least substitution, on arguments that are normal. */
  ghost predicate UseOk(lemmas: Lemmas, u: Use) {
    && u.redex.App? && AreNormal(lemmas, u.redex.args) && u.redex.f in lemmas && u.index < |lemmas[u.redex.f]|
    && Chosen(lemmas[u.redex.f], u.index, u.bindings, u.redex)
  }

  ghost predicate Chosen(lst: seq<Rule>, k: nat, alist: Alist, term: Term)
    requires k < |lst|
  {
    && BindsVars(alist) && Matched(alist, lst[k].lhs, term)
    && (forall s :: BindsVars(s) && Matched(s, lst[k].lhs, term) ==> Extends(s, alist))
    && forall j :: 0 <= j < k ==> Unmatched(lst[j].lhs, term)
  }

  ghost predicate AllUses(lemmas: Lemmas, uses: seq<Use>) {
    forall u :: u in uses ==> UseOk(lemmas, u)
  }

  ghost function Instance(lemmas: Lemmas, u: Use): Term {
    if u.redex.App? && u.redex.f in lemmas && u.index < |lemmas[u.redex.f]|
    then ApplySubst(u.bindings, lemmas[u.redex.f][u.index].rhs) else u.redex
  }

  /** The subterms of all instances. */
  ghost function Placed(lemmas: Lemmas, uses: seq<Use>): nat {
    if uses == [] then 0 else Nodes(Instance(lemmas, uses[0])) + Placed(lemmas, uses[1..])
  }

  lemma {:induction false} PlacedJoined(lemmas: Lemmas, uses: seq<Use>, more: seq<Use>)
    ensures Placed(lemmas, uses + more) == Placed(lemmas, uses) + Placed(lemmas, more)
    decreases |uses|
  {
    if uses == [] {
      assert uses + more == more;
    } else {
      assert (uses + more)[1..] == uses[1..] + more;
      PlacedJoined(lemmas, uses[1..], more);
    }
  }

  lemma UsesJoined(lemmas: Lemmas, uses: seq<Use>, use: Use, more: seq<Use>)
    requires AllUses(lemmas, uses) && UseOk(lemmas, use) && AllUses(lemmas, more)
    ensures AllUses(lemmas, uses + [use] + more)
    ensures Placed(lemmas, uses + [use] + more) == Placed(lemmas, uses) + Nodes(Instance(lemmas, use)) + Placed(lemmas, more)
  {
    PlacedJoined(lemmas, uses + [use], more);
    PlacedJoined(lemmas, uses, [use]);
    assert Placed(lemmas, [use]) == Nodes(Instance(lemmas, use)) + Placed(lemmas, []);
  }

  lemma NoUses(lemmas: Lemmas)
    ensures AllUses(lemmas, []) && Placed(lemmas, []) == 0
  {}

  lemma UseFound(lemmas: Lemmas, u: Use)
    requires u.redex.App? && AreNormal(lemmas, u.redex.args) && u.redex.f in lemmas && u.index < |lemmas[u.redex.f]|
    requires BindsVars(u.bindings) && Matched(u.bindings, lemmas[u.redex.f][u.index].lhs, u.redex)
    requires forall s :: BindsVars(s) && Matched(s, lemmas[u.redex.f][u.index].lhs, u.redex) ==> Extends(s, u.bindings)
    requires forall j :: 0 <= j < u.index ==> Unmatched(lemmas[u.redex.f][j].lhs, u.redex)
    ensures UseOk(lemmas, u)
  {}

  lemma NotUnified(lhs: Term, term: Term)
    requires forall s :: BindsVars(s) ==> !Matched(s, lhs, term)
    ensures Unmatched(lhs, term)
  {}

  /** A term on which no lemma matches stays, in as many calls as it has subterms. */
  lemma {:induction false} NormalStays(lemmas: Lemmas, term: Term, fuel: nat)
    requires IsNormal(lemmas, term)
    ensures Rewritten(lemmas, term, fuel) == Outcome(Some(term), Nodes(term))
    decreases term
  {
    if term.App? {
      NormalsStay(lemmas, term.args, fuel);
      FirstMatchLeast(Rules(lemmas, term), term);
    }
  }

  lemma {:induction false} NormalsStay(lemmas: Lemmas, lst: seq<Term>, fuel: nat)
    requires AreNormal(lemmas, lst)
    ensures RewrittenArgs(lemmas, lst, fuel) == Outcome(Some(lst), NodesAll(lst))
    decreases lst
  {
    if lst != [] {
      NormalStays(lemmas, lst[0], fuel);
      NormalsStay(lemmas, lst[1..], fuel);
      assert lst == [lst[0]] + lst[1..];
    }
  }

  /** Nothing is chosen if nothing matches; else the lemma of least index that matches. */
  lemma {:induction false} FirstMatchLeast(lst: seq<Rule>, term: Term)
    ensures FirstMatch(lst, term).None? <==> forall k :: 0 <= k < |lst| ==> Unmatched(lst[k].lhs, term)
    ensures FirstMatch(lst, term).Some? ==>
      exists k, alist :: 0 <= k < |lst| && Chosen(lst, k, alist, term) && FirstMatch(lst, term).value == ApplySubst(alist, lst[k].rhs)
    decreases |lst|
  {
    if lst != [] {
      var rest := lst[1..];
      var r := Unify(term, lst[0].lhs, []);
      UnifyMeets(term, lst[0].lhs, []);
      NothingExtendsNone();
      if r.Some? {
        assert Chosen(lst, 0, r.value, term);
        assert !Unmatched(lst[0].lhs, term);
      } else {
        FirstMatchLeast(rest, term);
        assert Unmatched(lst[0].lhs, term);
        assert forall k :: 0 <= k < |rest| ==> rest[k] == lst[k + 1];
        if FirstMatch(rest, term).Some? {
          var k, alist :| 0 <= k < |rest| && Chosen(rest, k, alist, term)
            && FirstMatch(rest, term).value == ApplySubst(alist, rest[k].rhs);
          assert Chosen(lst, k + 1, alist, term);
        }
      }
    }
  }

  /** On normal arguments the result is that of the instance of the first lemma that matches, one call for every node of
      the term besides; without such a lemma it is the term. */
  lemma RewritesFirst(lemmas: Lemmas, term: Term, fuel: nat)
    requires term.App? && AreNormal(lemmas, term.args)
    ensures NoMatch(lemmas, term) ==> Rewritten(lemmas, term, fuel) == Outcome(Some(term), Nodes(term))
    ensures !NoMatch(lemmas, term) && fuel > 0 ==>
      exists u :: UseOk(lemmas, u) && u.redex == term
               && Rewritten(lemmas, term, fuel).result == Rewritten(lemmas, Instance(lemmas, u), fuel - 1).result
               && Rewritten(lemmas, term, fuel).count == Nodes(term) + Rewritten(lemmas, Instance(lemmas, u), fuel - 1).count
  {
    NormalsStay(lemmas, term.args, fuel);
    var lst := Rules(lemmas, term);
    FirstMatchLeast(lst, term);
    if !NoMatch(lemmas, term) && fuel > 0 {
      var k, alist :| 0 <= k < |lst| && Chosen(lst, k, alist, term)
        && FirstMatch(lst, term).value == ApplySubst(alist, lst[k].rhs);
      var u := Use(term, k, alist);
      assert UseOk(lemmas, u);
    }
  }

  /** In a result no lemma matches anywhere. */
  lemma {:induction false} ResultNormal(lemmas: Lemmas, term: Term, fuel: nat)
    ensures var r := Rewritten(lemmas, term, fuel).result; r.Some? ==> IsNormal(lemmas, r.value)
    decreases fuel, term, 1
  {
    hide FirstMatch;
    if term.App? {
      ResultsNormal(lemmas, term.args, fuel);
      var args := RewrittenArgs(lemmas, term.args, fuel).result;
      if args.Some? {
        var inner := App(term.f, args.value);
        var next := FirstMatch(Rules(lemmas, term), inner);
        FirstMatchLeast(Rules(lemmas, term), inner);
        if next.Some? && fuel > 0 {
          ResultNormal(lemmas, next.value, fuel - 1);
        }
      }
    }
  }

  lemma {:induction false} ResultsNormal(lemmas: Lemmas, lst: seq<Term>, fuel: nat)
    ensures var r := RewrittenArgs(lemmas, lst, fuel).result; r.Some? ==> AreNormal(lemmas, r.value) && |r.value| == |lst|
    decreases fuel, lst, 0
  {
    if lst != [] {
      ResultNormal(lemmas, lst[0], fuel);
      ResultsNormal(lemmas, lst[1..], fuel);
      var first, rest := Rewritten(lemmas, lst[0], fuel).result, RewrittenArgs(lemmas, lst[1..], fuel).result;
      if first.Some? && rest.Some? {
        assert ([first.value] + rest.value)[1..] == rest.value;
      }
    }
  }

  /** The calls for the terms of a list, one after the other. */
  ghost function Calls(lemmas: Lemmas, lst: seq<Term>, fuel: nat): nat {
    if lst == [] then 0 else Rewritten(lemmas, lst[0], fuel).count + Calls(lemmas, lst[1..], fuel)
  }

  lemma {:induction false} EachRewritten(lemmas: Lemmas, lst: seq<Term>, args: seq<Term>, fuel: nat)
    requires |args| == |lst| && forall k :: 0 <= k < |lst| ==> Rewritten(lemmas, lst[k], fuel).result == Some(args[k])
    ensures RewrittenArgs(lemmas, lst, fuel) == Outcome(Some(args), Calls(lemmas, lst, fuel))
    decreases |lst|
  {
    if lst != [] {
      assert Rewritten(lemmas, lst[0], fuel).result == Some(args[0]);
      forall k | 0 <= k < |lst[1..]|
        ensures Rewritten(lemmas, lst[1..][k], fuel).result == Some(args[1..][k])
      {
        assert Rewritten(lemmas, lst[k + 1], fuel).result == Some(args[k + 1]);
      }
      hide Rewritten;
      EachRewritten(lemmas, lst[1..], args[1..], fuel);
      assert args == [args[0]] + args[1..];
    }
  }

  /** Rewriting begins with the arguments: their results stay in their places, and the term goes on with those, which
      are not rewritten a second time. */
  lemma RewritesInside(lemmas: Lemmas, term: Term, args: seq<Term>, fuel: nat)
    requires term.App? && |args| == |term.args|
    requires forall k :: 0 <= k < |args| ==> Rewritten(lemmas, term.args[k], fuel).result == Some(args[k])
    ensures AreNormal(lemmas, args)
    ensures var r, inner := Rewritten(lemmas, term, fuel), Rewritten(lemmas, App(term.f, args), fuel);
      r.result == inner.result && r.count + NodesAll(args) == Calls(lemmas, term.args, fuel) + inner.count
  {
    EachRewritten(lemmas, term.args, args, fuel);
    ResultsNormal(lemmas, term.args, fuel);
    NormalsStay(lemmas, args, fuel);
    hide FirstMatch;
    hide RewrittenArgs;
    hide AreNormal;
  }

  /** No rewriting takes fewer calls than its term has subterms. */
  lemma {:induction false} AtLeastNodes(lemmas: Lemmas, term: Term, fuel: nat)
    requires Rewritten(lemmas, term, fuel).result.Some?
    ensures Rewritten(lemmas, term, fuel).count >= Nodes(term)
    decreases term
  {
    hide FirstMatch;
    if term.App? {
      AtLeastNodesAll(lemmas, term.args, fuel);
    }
  }

  lemma {:induction false} AtLeastNodesAll(lemmas: Lemmas, lst: seq<Term>, fuel: nat)
    requires RewrittenArgs(lemmas, lst, fuel).result.Some?
    ensures RewrittenArgs(lemmas, lst, fuel).count >= NodesAll(lst)
    decreases lst
  {
    if lst != [] {
      AtLeastNodes(lemmas, lst[0], fuel);
      AtLeastNodesAll(lemmas, lst[1..], fuel);
    }
  }

  /** More depth changes neither the result nor the count. */
  lemma {:induction false} MoreDepth(lemmas: Lemmas, term: Term, fuel: nat, more: nat)
    requires fuel <= more && Rewritten(lemmas, term, fuel).result.Some?
    ensures Rewritten(lemmas, term, more) == Rewritten(lemmas, term, fuel)
    decreases fuel, term, 1
  {
    hide FirstMatch;
    hide Rules;
    if term.App? {
      MoreDepthArgs(lemmas, term.args, fuel, more);
      var inner := App(term.f, RewrittenArgs(lemmas, term.args, fuel).result.value);
      var next := FirstMatch(Rules(lemmas, term), inner);
      if next.Some? {
        MoreDepth(lemmas, next.value, fuel - 1, more - 1);
      }
    }
  }

  lemma {:induction false} MoreDepthArgs(lemmas: Lemmas, lst: seq<Term>, fuel: nat, more: nat)
    requires fuel <= more && RewrittenArgs(lemmas, lst, fuel).result.Some?
    ensures RewrittenArgs(lemmas, lst, more) == RewrittenArgs(lemmas, lst, fuel)
    decreases fuel, lst, 0
  {
    if lst != [] {
      MoreDepth(lemmas, lst[0], fuel, more);
      MoreDepthArgs(lemmas, lst[1..], fuel, more);
    }
  }

  /** No depth is enough for every lemma: by `(a) = (a)` rewriting `(a)` goes on for ever. */
  lemma {:induction false} NeverEnds(fuel: nat)
    ensures var a := App("a", []);
      Rewritten(map["a" := [Rule(a, a)]], a, fuel).result.None?
    decreases fuel
  {
    var a := App("a", []);
    var lemmas: Lemmas := map["a" := [Rule(a, a)]];
    assert RewrittenArgs(lemmas, [], fuel).result == Some([]);
    assert UnifyAll([], [], []) == Some([]);
    assert Unify(a, a, []) == Some([]);
    assert ApplySubst([], a) == a;
    assert Rules(lemmas, a) == [Rule(a, a)];
    assert FirstMatch([Rule(a, a)], a) == Some(a);
    if fuel > 0 {
      NeverEnds(fuel - 1);
    }
  }

  class Prover {
    var unifySubst: Alist
    var rewriteCount: int
    var lemmas: Lemmas

    constructor ()
      ensures unifySubst == [] && rewriteCount == 0 && lemmas == map[]
    {
      unifySubst, rewriteCount, lemmas := [], 0, map[];
    }

    /** `one_way_unify1`: match `term1` against the pattern `term2`, adding bindings. */
    method OneWayUnify1(term1: Term, term2: Term) returns (unified: bool)
      requires BindsVars(unifySubst)
      modifies this`unifySubst
      ensures BindsVars(unifySubst) && Extends(unifySubst, old(unifySubst))
      ensures unified ==> Matched(unifySubst, term2, term1)
      ensures forall s :: BindsVars(s) && Extends(s, old(unifySubst)) && Matched(s, term2, term1) ==>
                unified && Extends(s, unifySubst)
      ensures var r := Unify(term1, term2, old(unifySubst));
        (unified <==> r.Some?) && (unified ==> unifySubst == r.value)
      decreases term2, 1
    {
      UnifyMeets(term1, term2, unifySubst);
      if !term2.App? {
        unified := UnifyAtom(term1, term2);
      } else if !term1.App? {
        unified := false;
      } else if term1.f == term2.f {
        unified := UnifyArgs(term1.args, term2.args);
      } else {
        unified := false;
      }
    }

    /** The first branch: a variable or a number. */
    method UnifyAtom(term1: Term, term2: Term) returns (unified: bool)
      requires BindsVars(unifySubst) && !term2.App?
      modifies this`unifySubst
      ensures BindsVars(unifySubst) && Extends(unifySubst, old(unifySubst))
      ensures var r := Unify(term1, term2, old(unifySubst));
        (unified <==> r.Some?) && (unified ==> unifySubst == r.value)
    {
      var bound := Assq(term2, unifySubst);
      if bound.Some? {
        EqualTerms(term1, bound.value);
        unified := IsTermEqual(term1, bound.value);
      } else if term2.Num? {
        unified := term1 == term2;
      } else {
        unifySubst := [(term2, term1)] + unifySubst;
        unified := true;
      }
    }

    /** The loop over the arguments. */
    method UnifyArgs(terms: seq<Term>, patterns: seq<Term>) returns (unified: bool)
      requires BindsVars(unifySubst)
      modifies this`unifySubst
      ensures BindsVars(unifySubst) && Extends(unifySubst, old(unifySubst))
      ensures var r := UnifyAll(terms, patterns, old(unifySubst));
        (unified <==> r.Some?) && (unified ==> unifySubst == r.value)
      decreases patterns, 0
    {
      if terms == [] {
        return patterns == [];
      }
      if patterns == [] {
        return false;
      }
      unified := OneWayUnify1(terms[0], patterns[0]);
      if unified {
        unified := UnifyArgs(terms[1..], patterns[1..]);
      }
    }

    /** `rewrite`, cut off after `fuel` nested uses of lemmas: whether it ends depends on the lemmas.
        What it returns equals the term by the lemmas, and no lemma matches anywhere in it.  It is called once for
        every node of the term and of the instances that it puts in place; each is of the first lemma that matches. */
    method Rewrite(term: Term, fuel: nat) returns (r: Option<Term>, ghost uses: seq<Use>)
      modifies this`unifySubst, this`rewriteCount
      ensures r.Some? ==> Convertible(lemmas, term, r.value) && IsNormal(lemmas, r.value)
      ensures r.Some? ==> AllUses(lemmas, uses) && rewriteCount == old(rewriteCount) + Nodes(term) + Placed(lemmas, uses)
      ensures r == Rewritten(lemmas, term, fuel).result
      ensures rewriteCount == old(rewriteCount) + Rewritten(lemmas, term, fuel).count
      decreases fuel, term, 1
    {
      hide UseOk;
      hide Chosen;
      hide AllUses;
      hide Placed;
      hide Unmatched;
      hide Convertible;
      hide AllConvertible;
      hide Unify;
      hide Covers;
      hide Extends;
      NoUses(lemmas);
      rewriteCount := rewriteCount + 1;
      uses := [];
      if !term.App? {
        ConvertibleRefl(lemmas, term);
        return Some(term), [];
      }
      var args;
      args, uses := RewriteArgs(term.args, fuel);
      if args.None? {
        return None, [];
      }
      var inner := App(term.f, args.value);
      ConvertibleArgs(lemmas, term.f, term.args, args.value);
      var lst := if term.f in lemmas then lemmas[term.f] else [];
      ghost var t := 0;
      while lst != []
        invariant 0 <= t && (term.f in lemmas ==> t <= |lemmas[term.f]| && lst == lemmas[term.f][t..])
        invariant term.f !in lemmas ==> lst == []
        invariant term.f in lemmas ==> forall k :: 0 <= k < t ==> Unmatched(lemmas[term.f][k].lhs, inner)
        invariant FirstMatch(lst, inner) == FirstMatch(Rules(lemmas, term), inner)
        invariant rewriteCount == old(rewriteCount) + 1 + RewrittenArgs(lemmas, term.args, fuel).count
        invariant rewriteCount == old(rewriteCount) + Nodes(term) + Placed(lemmas, uses)
        decreases |lst|
      {
        unifySubst := [];
        var unified := OneWayUnify1(inner, lst[0].lhs);
        NothingExtendsNone();
        if unified {
          if fuel == 0 {
            return None, [];
          }
          assert lst[0] == lemmas[term.f][t] && IsLemma(lemmas, lst[0]);
          ConvertibleInstance(lemmas, lst[0], unifySubst);
          ghost var use := Use(inner, t, unifySubst);
          UseFound(lemmas, use);
          ghost var next := Instance(lemmas, use);
          ConvertibleTrans(lemmas, term, inner, next);
          ghost var more;
          r, more := Rewrite(ApplySubst(unifySubst, lst[0].rhs), fuel - 1);
          if r.Some? {
            ConvertibleTrans(lemmas, term, next, r.value);
            UsesJoined(lemmas, uses, use, more);
          }
          uses := uses + [use] + more;
          return;
        }
        NotUnified(lst[0].lhs, inner);
        lst := lst[1..];
        t := t + 1;
      }
      r := Some(inner);
    }

    method RewriteArgs(lst: seq<Term>, fuel: nat) returns (r: Option<seq<Term>>, ghost uses: seq<Use>)
      modifies this`unifySubst, this`rewriteCount
      ensures r.Some? ==> AllConvertible(lemmas, lst, r.value) && AreNormal(lemmas, r.value)
      ensures r.Some? ==> AllUses(lemmas, uses) && rewriteCount == old(rewriteCount) + NodesAll(lst) + Placed(lemmas, uses)
      ensures r == RewrittenArgs(lemmas, lst, fuel).result
      ensures rewriteCount == old(rewriteCount) + RewrittenArgs(lemmas, lst, fuel).count
      decreases fuel, lst, 0
    {
      if lst == [] {
        return Some([]), [];
      }
      var first;
      first, uses := Rewrite(lst[0], fuel);
      if first.None? {
        return None, [];
      }
      var rest;
      ghost var more;
      rest, more := RewriteArgs(lst[1..], fuel);
      if rest.None? {
        return None, [];
      }
      PlacedJoined(lemmas, uses, more);
      uses := uses + more;
      r := Some([first.value] + rest.value);
      assert r.value[1..] == rest.value;
      forall k | 0 <= k < |lst|
        ensures Convertible(lemmas, lst[k], r.value[k])
      {
        if k > 0 {
          assert lst[1..][k - 1] == lst[k] && rest.value[k - 1] == r.value[k];
        }
      }
    }
  }

  lemma NothingExtendsNone()
    ensures forall s: Alist :: Extends(s, [])
  {}
}
