/** What the prover's answers mean: interpretations of terms, soundness of rewriting, and the decision
    of if-terms. */
module Tautology {
  import opened Boyer
  import opened Options

  // ---- interpretations

  /** A meaning for function symbols and numbers, with the values of (t) and (f). */
  datatype Interp<!V> = Interp(fn: (string, seq<V>) -> V, num: int -> V, yes: V, no: V)

  ghost function Eval<V>(m: Interp<V>, env: string -> V, term: Term): V
    decreases term
  {
    match term
    case Var(name) => env(name)
    case Num(n) => m.num(n)
    case App(f, args) => m.fn(f, EvalAll(m, env, args))
  }

  ghost function EvalAll<V>(m: Interp<V>, env: string -> V, lst: seq<Term>): (r: seq<V>)
    ensures |r| == |lst|
    decreases lst
  {
    if lst == [] then [] else [Eval(m, env, lst[0])] + EvalAll(m, env, lst[1..])
  }

  /** (t) and (f) differ, and `if` chooses by its first argument. */
  ghost predicate Logical<V(!new)>(m: Interp<V>) {
    && m.fn("t", []) == m.yes && m.fn("f", []) == m.no && m.yes != m.no
    && forall s: seq<V> :: |s| >= 3 ==> m.fn("if", s) == if s[0] != m.no then s[1] else s[2]
  }

  /** In `m` both sides of the equation have one value, whatever the variables are. */
  ghost predicate ValidRule<V(!new)>(m: Interp<V>, rule: Rule) {
    forall env: string -> V :: Eval(m, env, rule.lhs) == Eval(m, env, rule.rhs)
  }

  ghost predicate Model<V(!new)>(m: Interp<V>, lemmas: Lemmas) {
    forall rule :: IsLemma(lemmas, rule) ==> ValidRule(m, rule)
  }

  /** The values that a substitution gives the variables. */
  ghost function Bound<V>(m: Interp<V>, env: string -> V, alist: Alist): string -> V {
    name => match Assq(Var(name), alist) case Some(t) => Eval(m, env, t) case None => env(name)
  }

  lemma {:induction false} EvalSubst<V>(m: Interp<V>, env: string -> V, alist: Alist, term: Term)
    requires BindsVars(alist)
    ensures Eval(m, env, ApplySubst(alist, term)) == Eval(m, Bound(m, env, alist), term)
    decreases term
  {
    match term
    case Var(_) =>
    case Num(n) => NumbersUnbound(alist, n);
    case App(_, args) => EvalSubstAll(m, env, alist, args);
  }

  lemma {:induction false} EvalSubstAll<V>(m: Interp<V>, env: string -> V, alist: Alist, lst: seq<Term>)
    requires BindsVars(alist)
    ensures EvalAll(m, env, ApplySubstAll(alist, lst)) == EvalAll(m, Bound(m, env, alist), lst)
    decreases lst
  {
    if lst != [] {
      EvalSubst(m, env, alist, lst[0]);
      EvalSubstAll(m, env, alist, lst[1..]);
      var r := ApplySubstAll(alist, lst);
      assert r[0] == ApplySubst(alist, lst[0]) && r[1..] == ApplySubstAll(alist, lst[1..]);
    }
  }

  lemma InstanceValid<V(!new)>(m: Interp<V>, lemmas: Lemmas, env: string -> V, s: Term, t: Term)
    requires Model(m, lemmas) && IsInstance(lemmas, s, t)
    ensures Eval(m, env, s) == Eval(m, env, t)
  {
    var rule, alist :| IsLemma(lemmas, rule) && BindsVars(alist)
      && s == ApplySubst(alist, rule.lhs) && t == ApplySubst(alist, rule.rhs);
    EvalSubst(m, env, alist, rule.lhs);
    EvalSubst(m, env, alist, rule.rhs);
    assert ValidRule(m, rule);
  }

  lemma {:induction false} ArgsValid<V(!new)>(m: Interp<V>, env: string -> V, ss: seq<Term>, ts: seq<Term>)
    requires |ss| == |ts| && forall k :: 0 <= k < |ss| ==> Eval(m, env, ss[k]) == Eval(m, env, ts[k])
    ensures EvalAll(m, env, ss) == EvalAll(m, env, ts)
    decreases |ss|
  {
    if ss != [] {
      ArgsValid(m, env, ss[1..], ts[1..]);
    }
  }

  /** Terms that are equal by the lemmas have one value in every model of the lemmas. */
  lemma {:induction false} EqualValid<V(!new)>(m: Interp<V>, lemmas: Lemmas, env: string -> V, s: Term, t: Term, h: nat)
    requires Model(m, lemmas) && Equal(lemmas, s, t, h)
    ensures Eval(m, env, s) == Eval(m, env, t)
    decreases h
  {
    if s != t {
      if IsInstance(lemmas, s, t) {
        InstanceValid(m, lemmas, env, s, t);
      } else if InTwoSteps(lemmas, s, t, h - 1) {
        var u := MiddleTerm(lemmas, s, t, h - 1);
        EqualValid(m, lemmas, env, s, u, h - 1);
        EqualValid(m, lemmas, env, u, t, h - 1);
      } else {
        forall k | 0 <= k < |s.args|
          ensures Eval(m, env, s.args[k]) == Eval(m, env, t.args[k])
        {
          EqualValid(m, lemmas, env, s.args[k], t.args[k], h - 1);
        }
        ArgsValid(m, env, s.args, t.args);
      }
    }
  }

  lemma ConvertibleValid<V(!new)>(m: Interp<V>, lemmas: Lemmas, env: string -> V, s: Term, t: Term)
    requires Model(m, lemmas) && Convertible(lemmas, s, t)
    ensures Eval(m, env, s) == Eval(m, env, t)
  {
    var h: nat :| Equal(lemmas, s, t, h);
    EqualValid(m, lemmas, env, s, t, h);
  }

  // ---- tautologyp

  ghost predicate IsIf(x: Term) {
    x.App? && x.f == "if"
  }

  /** Every `if` that the decision can reach has its three arguments. */
  ghost predicate WellFormed(x: Term)
    decreases x
  {
    IsIf(x) ==> |x.args| >= 3 && WellFormed(x.args[1]) && WellFormed(x.args[2])
  }

  /** `tautologyp`: `x` under the tests taken to be true and the tests taken to be false. */
  function Tautologyp(x: Term, trueLst: seq<Term>, falseLst: seq<Term>): (r: bool)
    requires WellFormed(x)
    decreases x
  {
    if IsTermEqual(x, TRUE_TERM) || IsTermMember(x, trueLst) then true
    else if IsTermEqual(x, FALSE_TERM) || IsTermMember(x, falseLst) then false
    else if !x.App? then false
    else if x.f == "if" then
      var c := x.args[0];
      if IsTermEqual(c, TRUE_TERM) || IsTermMember(c, trueLst) then Tautologyp(x.args[1], trueLst, falseLst)
      else if IsTermEqual(c, FALSE_TERM) || IsTermMember(c, falseLst) then Tautologyp(x.args[2], trueLst, falseLst)
      else if Tautologyp(x.args[1], [c] + trueLst, falseLst) then Tautologyp(x.args[2], trueLst, [c] + falseLst)
      else false
    else false
  }

  ghost predicate AllTrue<V>(m: Interp<V>, env: string -> V, lst: seq<Term>) {
    forall k :: 0 <= k < |lst| ==> Eval(m, env, lst[k]) != m.no
  }

  ghost predicate AllFalse<V>(m: Interp<V>, env: string -> V, lst: seq<Term>) {
    forall k :: 0 <= k < |lst| ==> Eval(m, env, lst[k]) == m.no
  }

  lemma EvalIf<V(!new)>(m: Interp<V>, env: string -> V, x: Term)
    requires Logical(m) && IsIf(x) && |x.args| >= 3
    ensures Eval(m, env, x) == if Eval(m, env, x.args[0]) != m.no then Eval(m, env, x.args[1]) else Eval(m, env, x.args[2])
  {
    var s := EvalAll(m, env, x.args);
    EvalAllAt(m, env, x.args, 0);
    EvalAllAt(m, env, x.args, 1);
    EvalAllAt(m, env, x.args, 2);
    assert m.fn("if", s) == if s[0] != m.no then s[1] else s[2];
  }

  lemma {:induction false} EvalAllAt<V>(m: Interp<V>, env: string -> V, lst: seq<Term>, k: nat)
    requires k < |lst|
    ensures EvalAll(m, env, lst)[k] == Eval(m, env, lst[k])
  {
    if k > 0 {
      EvalAllAt(m, env, lst[1..], k - 1);
    }
  }

  lemma EvalConstants<V(!new)>(m: Interp<V>, env: string -> V)
    requires Logical(m)
    ensures Eval(m, env, TRUE_TERM) == m.yes != m.no && Eval(m, env, FALSE_TERM) == m.no
  {}

  /** A yes of the decision is right in every interpretation, whatever the tests are. */
  lemma {:induction false} TautologySound<V(!new)>(m: Interp<V>, env: string -> V, x: Term, trueLst: seq<Term>, falseLst: seq<Term>)
    requires Logical(m) && WellFormed(x) && Tautologyp(x, trueLst, falseLst)
    requires AllTrue(m, env, trueLst) && AllFalse(m, env, falseLst)
    ensures Eval(m, env, x) != m.no
    decreases x
  {
    EvalConstants(m, env);
    EqualTerms(x, TRUE_TERM);
    MemberIn(x, trueLst);
    if x != TRUE_TERM && x !in trueLst {
      var c := x.args[0];
      EvalIf(m, env, x);
      EqualTerms(c, TRUE_TERM);
      EqualTerms(c, FALSE_TERM);
      MemberIn(c, trueLst);
      MemberIn(c, falseLst);
      if c == TRUE_TERM || c in trueLst {
        TautologySound(m, env, x.args[1], trueLst, falseLst);
      } else if c == FALSE_TERM || c in falseLst {
        TautologySound(m, env, x.args[2], trueLst, falseLst);
      } else if Eval(m, env, c) != m.no {
        TautologySound(m, env, x.args[1], [c] + trueLst, falseLst);
      } else {
        TautologySound(m, env, x.args[2], trueLst, [c] + falseLst);
      }
    }
  }

  // ---- completeness on propositional valuations

  /** The truth of `x` when exactly the terms in `truths` are true and `if` is read as a choice. */
  ghost predicate Holds(x: Term, truths: set<Term>)
    requires WellFormed(x)
    decreases x
  {
    if IsIf(x) then if x.args[0] in truths then Holds(x.args[1], truths) else Holds(x.args[2], truths)
    else x in truths
  }

  /** No `if` stands in the test of another. */
  ghost predicate PlainTests(x: Term)
    requires WellFormed(x)
    decreases x
  {
    IsIf(x) ==> !IsIf(x.args[0]) && PlainTests(x.args[1]) && PlainTests(x.args[2])
  }

  ghost predicate Valuation(truths: set<Term>) {
    TRUE_TERM in truths && FALSE_TERM !in truths
  }

  /** True under every choice of truth values for the terms that are not ifs. */
  ghost predicate Valid(x: Term)
    requires WellFormed(x)
  {
    forall truths :: Valuation(truths) ==> Holds(x, truths)
  }

  /** The tests assumed so far can be true and false together. */
  ghost predicate Consistent(trueLst: seq<Term>, falseLst: seq<Term>) {
    && FALSE_TERM !in trueLst && TRUE_TERM !in falseLst
    && (forall y :: y in trueLst ==> !IsIf(y) && y !in falseLst) && (forall y :: y in falseLst ==> !IsIf(y))
  }

  ghost predicate Respects(truths: set<Term>, trueLst: seq<Term>, falseLst: seq<Term>) {
    Valuation(truths) && (forall y :: y in trueLst ==> y in truths) && (forall y :: y in falseLst ==> y !in truths)
  }

  /** A no of the decision comes with a valuation that makes the term false. */
  lemma {:induction false} Refuted(x: Term, trueLst: seq<Term>, falseLst: seq<Term>) returns (truths: set<Term>)
    requires WellFormed(x) && PlainTests(x) && Consistent(trueLst, falseLst) && !Tautologyp(x, trueLst, falseLst)
    ensures Respects(truths, trueLst, falseLst) && !Holds(x, truths)
    decreases x
  {
    EqualTerms(x, TRUE_TERM);
    EqualTerms(x, FALSE_TERM);
    MemberIn(x, trueLst);
    MemberIn(x, falseLst);
    if IsIf(x) && x !in falseLst {
      var c := x.args[0];
      EqualTerms(c, TRUE_TERM);
      EqualTerms(c, FALSE_TERM);
      MemberIn(c, trueLst);
      MemberIn(c, falseLst);
      if c == TRUE_TERM || c in trueLst {
        truths := Refuted(x.args[1], trueLst, falseLst);
      } else if c == FALSE_TERM || c in falseLst {
        truths := Refuted(x.args[2], trueLst, falseLst);
      } else if !Tautologyp(x.args[1], [c] + trueLst, falseLst) {
        truths := Refuted(x.args[1], [c] + trueLst, falseLst);
        assert c in [c] + trueLst;
        assert forall y :: y in trueLst ==> y in [c] + trueLst;
      } else {
        truths := Refuted(x.args[2], trueLst, [c] + falseLst);
        assert c in [c] + falseLst;
        assert forall y :: y in falseLst ==> y in [c] + falseLst;
      }
    } else {
      truths := {TRUE_TERM} + set y | y in trueLst;
    }
  }

  /** With plain tests a yes is right under every valuation that fits the assumptions. */
  lemma {:induction false} Confirmed(x: Term, trueLst: seq<Term>, falseLst: seq<Term>, truths: set<Term>)
    requires WellFormed(x) && PlainTests(x) && Consistent(trueLst, falseLst) && Tautologyp(x, trueLst, falseLst)
    requires Respects(truths, trueLst, falseLst)
    ensures Holds(x, truths)
    decreases x
  {
    EqualTerms(x, TRUE_TERM);
    EqualTerms(x, FALSE_TERM);
    MemberIn(x, trueLst);
    MemberIn(x, falseLst);
    if IsIf(x) {
      var c := x.args[0];
      EqualTerms(c, TRUE_TERM);
      EqualTerms(c, FALSE_TERM);
      MemberIn(c, trueLst);
      MemberIn(c, falseLst);
      if c == TRUE_TERM || c in trueLst {
        Confirmed(x.args[1], trueLst, falseLst, truths);
      } else if c == FALSE_TERM || c in falseLst {
        Confirmed(x.args[2], trueLst, falseLst, truths);
      } else if c in truths {
        Confirmed(x.args[1], [c] + trueLst, falseLst, truths);
      } else {
        Confirmed(x.args[2], trueLst, [c] + falseLst, truths);
      }
    }
  }

  /** On terms whose tests are no ifs the decision is exact. */
  lemma TautologyExact(x: Term)
    requires WellFormed(x) && PlainTests(x)
    ensures Tautologyp(x, [], []) <==> Valid(x)
  {
    if Tautologyp(x, [], []) {
      forall truths | Valuation(truths)
        ensures Holds(x, truths)
      {
        Confirmed(x, [], [], truths);
      }
    } else {
      var truths := Refuted(x, [], []);
    }
  }

  // ---- the prover from end to end

  /** `rewrite` and then `tautologyp`. */
  method Prove(prover: Prover, term: Term, fuel: nat) returns (answer: Option<bool>, ghost normal: Term, ghost uses: seq<Use>)
    modifies prover`unifySubst, prover`rewriteCount
    ensures answer.Some? ==> Convertible(prover.lemmas, term, normal) && IsNormal(prover.lemmas, normal) && WellFormed(normal)
    ensures answer.Some? ==> answer.value == Tautologyp(normal, [], [])
    ensures var r := Rewritten(prover.lemmas, term, fuel).result;
      (answer.Some? <==> r.Some? && WellFormed(r.value)) && (r.Some? ==> normal == r.value)
    ensures answer.Some? ==> AllUses(prover.lemmas, uses)
    ensures answer.Some? ==> prover.rewriteCount == old(prover.rewriteCount) + Nodes(term) + Placed(prover.lemmas, uses)
  {
    var r;
    r, uses := prover.Rewrite(term, fuel);
    normal := term;
    if r.Some? {
      normal := r.value;
      if IsWellFormed(r.value) {
        return Some(Tautologyp(r.value, [], [])), r.value, uses;
      }
    }
    answer := None;
  }

  /** The term that the benchmark proves: or false, `n` times over. */
  ghost function OrFalse(term: Term, n: nat): (r: Term)
    ensures Nodes(r) == Nodes(term) + 2 * n
  {
    if n == 0 then term else
      var t := OrFalse(term, n - 1);
      assert NodesAll([t, FALSE_TERM]) == Nodes(t) + NodesAll([FALSE_TERM]);
      App("or", [t, FALSE_TERM])
  }

  /** `test-boyer`: the number of calls of `rewrite` when the instance of the term is proved, and false (here no number)
      when it is not. */
  method TestBoyer(prover: Prover, term0: Term, alist: Alist, n: nat, fuel: nat)
    returns (answer: Option<Option<int>>, ghost normal: Term, ghost uses: seq<Use>)
    modifies prover`unifySubst, prover`rewriteCount
    ensures var term := ApplySubst(alist, OrFalse(term0, n));
      answer.Some? ==>
        && Convertible(prover.lemmas, term, normal) && IsNormal(prover.lemmas, normal) && WellFormed(normal)
        && (answer.value.Some? <==> Tautologyp(normal, [], [])) && AllUses(prover.lemmas, uses)
        && (answer.value.Some? ==> answer.value.value == Nodes(term) + Placed(prover.lemmas, uses))
  {
    prover.rewriteCount := 0;
    var term := term0;
    for i := 0 to n
      invariant term == OrFalse(term0, i)
    {
      term := App("or", [term, FALSE_TERM]);
    }
    var proved;
    proved, normal, uses := Prove(prover, ApplySubst(alist, term), fuel);
    answer := if proved.None? then None else if proved.value then Some(Some(prover.rewriteCount)) else Some(None);
  }

  /** Ifs with fewer than three arguments make `tautologyp` fail. */
  predicate IsWellFormed(x: Term)
    ensures IsWellFormed(x) <==> WellFormed(x)
    decreases x
  {
    !(x.App? && x.f == "if") || (|x.args| >= 3 && IsWellFormed(x.args[1]) && IsWellFormed(x.args[2]))
  }

  /** A term that is proved is not false in any model of the lemmas. */
  lemma ProofSound<V(!new)>(m: Interp<V>, lemmas: Lemmas, env: string -> V, term: Term, normal: Term)
    requires Logical(m) && Model(m, lemmas)
    requires Convertible(lemmas, term, normal) && WellFormed(normal) && Tautologyp(normal, [], [])
    ensures Eval(m, env, term) != m.no
  {
    ConvertibleValid(m, lemmas, env, term, normal);
    TautologySound(m, env, normal, [], []);
  }

  /** A term that is proved is still proved with terms in place of its variables. */
  lemma InstanceSound<V(!new)>(m: Interp<V>, lemmas: Lemmas, env: string -> V, alist: Alist, term: Term, normal: Term)
    requires Logical(m) && Model(m, lemmas) && BindsVars(alist)
    requires Convertible(lemmas, term, normal) && WellFormed(normal) && Tautologyp(normal, [], [])
    ensures Eval(m, env, ApplySubst(alist, term)) != m.no
  {
    EvalSubst(m, env, alist, term);
    ProofSound(m, lemmas, Bound(m, env, alist), term, normal);
  }

  /** An equation that `add-lemma` takes: (equal (f ...) rhs). */
  ghost predicate IsEquation(term: Term) {
    term.App? && term.f == "equal" && |term.args| >= 2 && term.args[0].App?
  }

  /** The loop of `setup-boyer`: each equation comes to the front of its symbol's lemmas; a term of
      another form stops it, with what was before it collected. */
  method AddLemmas(prover: Prover, terms: seq<Term>) returns (ok: bool)
    modifies prover`lemmas
    ensures ok <==> AllEquations(terms, |terms|)
    ensures ByHead(old(prover.lemmas)) ==> ByHead(prover.lemmas)
    ensures ok ==> Collected(old(prover.lemmas), prover.lemmas, terms, |terms|)
    ensures !ok ==> exists n :: 0 <= n < |terms| && AllEquations(terms, n) && !IsEquation(terms[n])
                              && Collected(old(prover.lemmas), prover.lemmas, terms, n)
  {
    ghost var before := prover.lemmas;
    var i := 0;
    while i < |terms|
      invariant 0 <= i <= |terms| && AllEquations(terms, i)
      invariant Collected(before, prover.lemmas, terms, i)
      invariant ByHead(before) ==> ByHead(prover.lemmas)
    {
      var term := terms[i];
      if !(term.App? && term.f == "equal" && |term.args| >= 2 && term.args[0].App?) {
        return false;
      }
      var rule, sym := Rule(term.args[0], term.args[1]), term.args[0].f;
      ByHeadStep(prover.lemmas, rule);
      CollectedStep(before, prover.lemmas, terms, i);
      prover.lemmas := prover.lemmas[sym := [rule] + if sym in prover.lemmas then prover.lemmas[sym] else []];
      i := i + 1;
    }
    ok := true;
  }

  ghost predicate AllEquations(terms: seq<Term>, n: int) {
    forall k :: 0 <= k < n && k < |terms| ==> IsEquation(terms[k])
  }

  lemma ByHeadStep(lemmas: Lemmas, rule: Rule)
    requires rule.lhs.App?
    ensures var sym := rule.lhs.f;
      ByHead(lemmas) ==> ByHead(lemmas[sym := [rule] + if sym in lemmas then lemmas[sym] else []])
  {}

  /** The lemmas that the first `n` equations make for one head symbol, the last of them first. */
  ghost function ForSymbol(terms: seq<Term>, n: nat, f: string): seq<Rule>
    requires n <= |terms| && AllEquations(terms, n)
  {
    if n == 0 then []
    else (if terms[n - 1].args[0].f == f then [Rule(terms[n - 1].args[0], terms[n - 1].args[1])] else []) + ForSymbol(terms, n - 1, f)
  }

  ghost function LemmasAt(lemmas: Lemmas, f: string): seq<Rule> {
    if f in lemmas then lemmas[f] else []
  }

  /** Every symbol has the lemmas of the first `n` equations before those that it had. */
  ghost predicate Collected(before: Lemmas, now: Lemmas, terms: seq<Term>, n: int) {
    && 0 <= n <= |terms| && AllEquations(terms, n)
    && forall f :: LemmasAt(now, f) == ForSymbol(terms, n, f) + LemmasAt(before, f)
  }

  lemma CollectedStep(before: Lemmas, now: Lemmas, terms: seq<Term>, i: nat)
    requires i < |terms| && IsEquation(terms[i]) && Collected(before, now, terms, i)
    ensures var sym := terms[i].args[0].f;
      Collected(before, now[sym := [Rule(terms[i].args[0], terms[i].args[1])] + LemmasAt(now, sym)], terms, i + 1)
  {
    var sym := terms[i].args[0].f;
    hide ForSymbol;
    hide LemmasAt;
    forall f
      ensures LemmasAt(now[sym := [Rule(terms[i].args[0], terms[i].args[1])] + LemmasAt(now, sym)], f) == ForSymbol(terms, i + 1, f) + LemmasAt(before, f)
    {
      CollectedAt(before, now, terms, i, f);
    }
  }

  lemma CollectedAt(before: Lemmas, now: Lemmas, terms: seq<Term>, i: nat, f: string)
    requires i < |terms| && AllEquations(terms, i + 1) && AllEquations(terms, i) && terms[i].App? && |terms[i].args| >= 2
    requires terms[i].args[0].App? && LemmasAt(now, f) == ForSymbol(terms, i, f) + LemmasAt(before, f)
    ensures var sym := terms[i].args[0].f;
      LemmasAt(now[sym := [Rule(terms[i].args[0], terms[i].args[1])] + LemmasAt(now, sym)], f) == ForSymbol(terms, i + 1, f) + LemmasAt(before, f)
  {
    hide *;
    var sym, rule := terms[i].args[0].f, Rule(terms[i].args[0], terms[i].args[1]);
    var had, made := LemmasAt(before, f), ForSymbol(terms, i, f);
    FrontStep(now, sym, rule, f);
    ForSymbolStep(terms, i, f);
    assert [rule] + (made + had) == ([rule] + made) + had;
    assert [] + made == made;
  }

  lemma FrontStep(lemmas: Lemmas, sym: string, rule: Rule, f: string)
    ensures LemmasAt(lemmas[sym := [rule] + LemmasAt(lemmas, sym)], f)
         == if f == sym then [rule] + LemmasAt(lemmas, f) else LemmasAt(lemmas, f)
  {}

  lemma ForSymbolStep(terms: seq<Term>, i: nat, f: string)
    requires i < |terms| && AllEquations(terms, i + 1)
    ensures AllEquations(terms, i) && IsEquation(terms[i]) && terms[i].App? && |terms[i].args| >= 2 && terms[i].args[0].App?
    ensures ForSymbol(terms, i + 1, f)
         == (if terms[i].args[0].f == f then [Rule(terms[i].args[0], terms[i].args[1])] else []) + ForSymbol(terms, i, f)
  {}

  /** The rule rewrites the first side of the equation to the second. */
  ghost predicate FromEquation(rule: Rule, term: Term) {
    term.App? && |term.args| >= 2 && rule.lhs == term.args[0] && rule.rhs == term.args[1]
  }

  /** So the lemmas are those from before and those of the equations. */
  lemma CollectedAre(before: Lemmas, now: Lemmas, terms: seq<Term>, n: nat, rule: Rule)
    requires Collected(before, now, terms, n)
    ensures IsLemma(now, rule) <==> IsLemma(before, rule) || exists k :: 0 <= k < n && FromEquation(rule, terms[k])
  {
    if IsLemma(now, rule) {
      var f :| f in now && rule in now[f];
      assert rule in LemmasAt(now, f);
      if rule in LemmasAt(before, f) {
        assert f in before;
      } else {
        ForSymbolHas(terms, n, f, rule);
      }
    }
    if IsLemma(before, rule) {
      var f :| f in before && rule in before[f];
      assert rule in LemmasAt(before, f);
      assert rule in LemmasAt(now, f);
    }
    if k :| 0 <= k < n && FromEquation(rule, terms[k]) {
      var f := terms[k].args[0].f;
      ForSymbolHas(terms, n, f, rule);
      assert rule in LemmasAt(now, f);
    }
  }

  lemma {:induction false} ForSymbolHas(terms: seq<Term>, n: nat, f: string, rule: Rule)
    requires n <= |terms| && AllEquations(terms, n)
    ensures rule in ForSymbol(terms, n, f) <==>
      exists k :: 0 <= k < n && FromEquation(rule, terms[k]) && rule.lhs.App? && rule.lhs.f == f
    decreases n
  {
    if n > 0 {
      ForSymbolHas(terms, n - 1, f, rule);
    }
  }

  // ---- one lemma of the benchmark's table, used

  /** The definition of `and`, its two sides. */
  ghost function AndRule(): Rule {
    Rule(App("and", [Var("p"), Var("q")]), App("if", [Var("p"), App("if", [Var("q"), TRUE_TERM, FALSE_TERM]), FALSE_TERM]))
  }

  ghost predicate OnlyAnd(lemmas: Lemmas) {
    forall f :: LemmasAt(lemmas, f) == if f == "and" then [AndRule()] else []
  }

  lemma OneCollected(before: Lemmas, now: Lemmas, terms: seq<Term>)
    requires before == map[] && terms == [App("equal", [AndRule().lhs, AndRule().rhs])] && Collected(before, now, terms, 1)
    ensures OnlyAnd(now)
  {
    forall f
      ensures LemmasAt(now, f) == if f == "and" then [AndRule()] else []
    {
      assert LemmasAt(now, f) == ForSymbol(terms, 1, f) + LemmasAt(before, f);
      assert ForSymbol(terms, 0, f) == [];
    }
  }

  /** A symbol without lemmas stays over arguments that stay. */
  lemma StaysOver(lemmas: Lemmas, f: string, args: seq<Term>)
    requires OnlyAnd(lemmas) && f != "and" && AreNormal(lemmas, args)
    ensures IsNormal(lemmas, App(f, args))
  {
    assert LemmasAt(lemmas, f) == [];
  }

  lemma AndRewrites(lemmas: Lemmas)
    requires OnlyAnd(lemmas)
    ensures var inner := App("if", [TRUE_TERM, TRUE_TERM, FALSE_TERM]);
      && Rewritten(lemmas, App("and", [TRUE_TERM, TRUE_TERM]), 1).result == Some(App("if", [TRUE_TERM, inner, FALSE_TERM]))
      && WellFormed(inner) && WellFormed(App("if", [TRUE_TERM, inner, FALSE_TERM]))
      && Tautologyp(App("if", [TRUE_TERM, inner, FALSE_TERM]), [], [])
  {
    var inner := App("if", [TRUE_TERM, TRUE_TERM, FALSE_TERM]);
    var last := App("if", [TRUE_TERM, inner, FALSE_TERM]);
    var start := App("and", [TRUE_TERM, TRUE_TERM]);
    StaysOver(lemmas, "t", []);
    StaysOver(lemmas, "f", []);
    AreNormalThree(lemmas, TRUE_TERM, TRUE_TERM, FALSE_TERM);
    StaysOver(lemmas, "if", [TRUE_TERM, TRUE_TERM, FALSE_TERM]);
    AreNormalThree(lemmas, TRUE_TERM, inner, FALSE_TERM);
    StaysOver(lemmas, "if", [TRUE_TERM, inner, FALSE_TERM]);
    NormalStays(lemmas, last, 0);
    assert [TRUE_TERM, TRUE_TERM][1..] == [TRUE_TERM];
    assert AreNormal(lemmas, [TRUE_TERM]);
    assert AreNormal(lemmas, [TRUE_TERM, TRUE_TERM]);
    NormalsStay(lemmas, start.args, 1);
    AndMatches(start, last);
    AndDecided(inner, last);
    assert LemmasAt(lemmas, "and") == [AndRule()];
  }

  lemma AreNormalThree(lemmas: Lemmas, a: Term, b: Term, c: Term)
    requires IsNormal(lemmas, a) && IsNormal(lemmas, b) && IsNormal(lemmas, c)
    ensures AreNormal(lemmas, [a, b, c])
  {
    assert [a, b, c][1..] == [b, c] && [b, c][1..] == [c];
    assert AreNormal(lemmas, [c]);
    assert AreNormal(lemmas, [b, c]);
  }

  lemma AndMatches(start: Term, last: Term)
    requires start == App("and", [TRUE_TERM, TRUE_TERM])
    requires last == App("if", [TRUE_TERM, App("if", [TRUE_TERM, TRUE_TERM, FALSE_TERM]), FALSE_TERM])
    ensures FirstMatch([AndRule()], start) == Some(last)
  {
    var p, q := Var("p"), Var("q");
    var one := [(p, TRUE_TERM)];
    var two := [(q, TRUE_TERM)] + one;
    assert Assq(p, []) == None && Assq(q, one) == Assq(q, one[1..]) == None;
    assert Unify(TRUE_TERM, p, []) == Some([(p, TRUE_TERM)] + []) && [(p, TRUE_TERM)] + [] == one;
    assert Unify(TRUE_TERM, q, one) == Some(two);
    assert UnifyAll([], [], two) == Some(two);
    assert [TRUE_TERM, TRUE_TERM][1..] == [TRUE_TERM] && [p, q][1..] == [q];
    assert UnifyAll([TRUE_TERM], [q], one) == UnifyAll([TRUE_TERM][1..], [q][1..], two);
    assert UnifyAll([TRUE_TERM, TRUE_TERM], [p, q], []) == UnifyAll([TRUE_TERM], [q], one);
    assert Unify(start, AndRule().lhs, []) == Some(two);
    assert Assq(q, two) == Some(TRUE_TERM) && Assq(p, two) == Assq(p, two[1..]) && two[1..] == one;
    SubstThree(two, q, TRUE_TERM, FALSE_TERM);
    SubstThree(two, p, App("if", [q, TRUE_TERM, FALSE_TERM]), FALSE_TERM);
    assert ApplySubst(two, TRUE_TERM) == TRUE_TERM && ApplySubst(two, FALSE_TERM) == FALSE_TERM;
  }

  lemma SubstThree(alist: Alist, a: Term, b: Term, c: Term)
    ensures ApplySubst(alist, App("if", [a, b, c]))
         == App("if", [ApplySubst(alist, a), ApplySubst(alist, b), ApplySubst(alist, c)])
  {
    assert [a, b, c][1..] == [b, c] && [b, c][1..] == [c] && [c][1..] == [];
    assert ApplySubstAll(alist, [c]) == [ApplySubst(alist, c)];
    assert ApplySubstAll(alist, [b, c]) == [ApplySubst(alist, b), ApplySubst(alist, c)];
    assert ApplySubstAll(alist, [a, b, c]) == [ApplySubst(alist, a), ApplySubst(alist, b), ApplySubst(alist, c)];
  }

  lemma AndDecided(inner: Term, last: Term)
    requires inner == App("if", [TRUE_TERM, TRUE_TERM, FALSE_TERM]) && last == App("if", [TRUE_TERM, inner, FALSE_TERM])
    ensures WellFormed(inner) && WellFormed(last) && Tautologyp(last, [], [])
  {
    assert WellFormed(TRUE_TERM) && WellFormed(FALSE_TERM);
    EqualTerms(TRUE_TERM, TRUE_TERM);
    EqualTerms(last, FALSE_TERM);
    EqualTerms(inner, FALSE_TERM);
    assert Tautologyp(TRUE_TERM, [], []);
  }

  /** With the equation that defines `and` as its only lemma, the prover proves (and (t) (t)). */
  method AndProved() returns (answer: Option<bool>)
    ensures answer == Some(true)
  {
    var prover := new Prover();
    var left := App("and", [Var("p"), Var("q")]);
    var right := App("if", [Var("p"), App("if", [Var("q"), TRUE_TERM, FALSE_TERM]), FALSE_TERM]);
    var terms := [App("equal", [left, right])];
    var ok := AddLemmas(prover, terms);
    assert IsEquation(terms[0]) && AllEquations(terms, 1);
    OneCollected(map[], prover.lemmas, terms);
    AndRewrites(prover.lemmas);
    ghost var normal, uses;
    answer, normal, uses := Prove(prover, App("and", [TRUE_TERM, TRUE_TERM]), 1);
  }
}
