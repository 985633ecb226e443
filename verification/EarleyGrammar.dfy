/** Grammars, derivations, the parser's tables, and what a complete chart says about derivations. */
module EarleyGrammar {

  type Symbol = string

  /** One definition of a grammar: a nonterminal and its alternatives. */
  datatype Def = Def(head: Symbol, rules: seq<seq<Symbol>>)

  type Grammar = seq<Def>

  /** A token, with the nonterminals that it can stand for. */
  datatype Token = Token(value: string, kinds: seq<Symbol>)

  ghost predicate IsRule(g: Grammar, head: Symbol, rhs: seq<Symbol>) {
    exists d :: d in g && d.head == head && rhs in d.rules
  }

  /** `s` derives tokens `i..j`, by a derivation of height at most `h`. */
  ghost predicate Derives(g: Grammar, toks: seq<Token>, s: Symbol, i: nat, j: nat, h: nat)
    decreases h, 0
  {
    && h > 0 && j <= |toks|
    && ((j == i + 1 && s in toks[i].kinds)
        || exists rhs :: IsRule(g, s, rhs) && DerivesAll(g, toks, rhs, i, j, h - 1))
  }

  /** The symbols of `rhs` derive tokens `i..j` one after the other. */
  ghost predicate DerivesAll(g: Grammar, toks: seq<Token>, rhs: seq<Symbol>, i: nat, j: nat, h: nat)
    decreases h, 1 + |rhs|
  {
    if rhs == [] then i == j <= |toks|
    else
      var last := |rhs| - 1;
      exists k: nat :: k <= j && DerivesAll(g, toks, rhs[..last], i, k, h) && Derives(g, toks, rhs[last], k, j, h)
  }

  ghost predicate Derivable(g: Grammar, toks: seq<Token>, s: Symbol, i: nat, j: nat) {
    exists h :: Derives(g, toks, s, i, j, h)
  }

  ghost predicate AllDerivable(g: Grammar, toks: seq<Token>, rhs: seq<Symbol>, i: nat, j: nat) {
    exists h :: DerivesAll(g, toks, rhs, i, j, h)
  }

  lemma {:induction false} DerivesHigher(g: Grammar, toks: seq<Token>, s: Symbol, i: nat, j: nat, h: nat, h': nat)
    requires Derives(g, toks, s, i, j, h) && h <= h'
    ensures Derives(g, toks, s, i, j, h')
    decreases h, 0
  {
    if !(j == i + 1 && s in toks[i].kinds) {
      var rhs :| IsRule(g, s, rhs) && DerivesAll(g, toks, rhs, i, j, h - 1);
      DerivesAllHigher(g, toks, rhs, i, j, h - 1, h' - 1);
    }
  }

  lemma {:induction false} DerivesAllHigher(g: Grammar, toks: seq<Token>, rhs: seq<Symbol>, i: nat, j: nat, h: nat, h': nat)
    requires DerivesAll(g, toks, rhs, i, j, h) && h <= h'
    ensures DerivesAll(g, toks, rhs, i, j, h')
    decreases h, 1 + |rhs|
  {
    if rhs != [] {
      var last := |rhs| - 1;
      var k: nat :| k <= j && DerivesAll(g, toks, rhs[..last], i, k, h) && Derives(g, toks, rhs[last], k, j, h);
      DerivesAllHigher(g, toks, rhs[..last], i, k, h, h');
      DerivesHigher(g, toks, rhs[last], k, j, h, h');
    }
  }

  /** A derivation spans tokens in order. */
  lemma {:induction false} DerivesSpan(g: Grammar, toks: seq<Token>, s: Symbol, i: nat, j: nat, h: nat)
    requires Derives(g, toks, s, i, j, h)
    ensures i <= j <= |toks|
    decreases h, 0
  {
    if !(j == i + 1 && s in toks[i].kinds) {
      var rhs :| IsRule(g, s, rhs) && DerivesAll(g, toks, rhs, i, j, h - 1);
      DerivesAllSpan(g, toks, rhs, i, j, h - 1);
    }
  }

  lemma {:induction false} DerivesAllSpan(g: Grammar, toks: seq<Token>, rhs: seq<Symbol>, i: nat, j: nat, h: nat)
    requires DerivesAll(g, toks, rhs, i, j, h)
    ensures i <= j <= |toks|
    decreases h, 1 + |rhs|
  {
    if rhs != [] {
      var last := |rhs| - 1;
      var k: nat :| k <= j && DerivesAll(g, toks, rhs[..last], i, k, h) && Derives(g, toks, rhs[last], k, j, h);
      DerivesAllSpan(g, toks, rhs[..last], i, k, h);
      DerivesSpan(g, toks, rhs[last], k, j, h);
    }
  }

  lemma EmptyDerivable(g: Grammar, toks: seq<Token>, i: nat)
    requires i <= |toks|
    ensures AllDerivable(g, toks, [], i, i)
  {
    assert DerivesAll(g, toks, [], i, i, 0);
  }

  lemma TokenDerivable(g: Grammar, toks: seq<Token>, s: Symbol, i: nat)
    requires i < |toks| && s in toks[i].kinds
    ensures Derivable(g, toks, s, i, i + 1)
  {
    assert Derives(g, toks, s, i, i + 1, 1);
  }

  lemma RuleDerivable(g: Grammar, toks: seq<Token>, s: Symbol, rhs: seq<Symbol>, i: nat, j: nat)
    requires IsRule(g, s, rhs) && AllDerivable(g, toks, rhs, i, j)
    ensures Derivable(g, toks, s, i, j)
  {
    var h: nat :| DerivesAll(g, toks, rhs, i, j, h);
    DerivesAllSpan(g, toks, rhs, i, j, h);
    assert Derives(g, toks, s, i, j, h + 1);
  }

  lemma SymbolAppended(g: Grammar, toks: seq<Token>, rhs: seq<Symbol>, s: Symbol, i: nat, k: nat, j: nat)
    requires AllDerivable(g, toks, rhs, i, k) && Derivable(g, toks, s, k, j)
    ensures AllDerivable(g, toks, rhs + [s], i, j)
  {
    var h1 :| DerivesAll(g, toks, rhs, i, k, h1);
    var h2 :| Derives(g, toks, s, k, j, h2);
    var h := h1 + h2;
    DerivesAllHigher(g, toks, rhs, i, k, h1, h);
    DerivesHigher(g, toks, s, k, j, h2, h);
    DerivesSpan(g, toks, s, k, j, h);
    var all := rhs + [s];
    assert all[..|all| - 1] == rhs;
    assert DerivesAll(g, toks, all, i, j, h);
  }

  // ---- the parser's tables

  /** The name of a rule's first configuration: the alternative by its number, or 0 for a token. */
  datatype Name = NoName | Name(head: Symbol, rule: int)

  /** `rhs` is the alternative with that name. */
  ghost predicate IsAlternative(g: Grammar, name: Name, rhs: seq<Symbol>) {
    name.Name? && exists d :: d in g && d.head == name.head && 1 <= name.rule <= |d.rules| && d.rules[name.rule - 1] == rhs
  }

  lemma RuleNamed(g: Grammar, head: Symbol, rhs: seq<Symbol>) returns (name: Name)
    requires IsRule(g, head, rhs)
    ensures IsAlternative(g, name, rhs) && name.head == head
  {
    var d :| d in g && d.head == head && rhs in d.rules;
    var t :| 0 <= t < |d.rules| && d.rules[t] == rhs;
    name := Name(head, t + 1);
  }

  /** The same, in the definition at place `s`. */
  ghost predicate GivenBy(g: Grammar, name: Name, rhs: seq<Symbol>, s: int) {
    && name.Name? && 0 <= s < |g| && g[s].head == name.head
    && 1 <= name.rule <= |g[s].rules| && g[s].rules[name.rule - 1] == rhs
  }

  /** Two definitions of a nonterminal give the same alternative under the same number. */
  ghost predicate GivenTwice(g: Grammar, name: Name, rhs: seq<Symbol>) {
    exists s, t :: 0 <= s < t < |g| && GivenBy(g, name, rhs, s) && GivenBy(g, name, rhs, t)
  }

  /** What the grammar is compiled to: `steps[c]` is the nonterminal that configuration `c` waits for,
      or, less the number of nonterminals, the one that it completes. */
  datatype Tables = Tables(
    nts: seq<Symbol>,
    starters: seq<seq<int>>,
    enders: seq<seq<int>>,
    predictors: seq<seq<int>>,
    steps: seq<int>,
    names: seq<Name>)

  /** What a configuration stands for: a token of kind `c`, or a rule read up to a dot. */
  datatype Dot = Tok | Dot(head: Symbol, rhs: seq<Symbol>, pos: nat)

  /** The ranges that the parser's indexing relies on. */
  ghost predicate InRange(p: Tables) {
    var a, n := |p.nts|, |p.steps|;
    && a <= n && |p.starters| == |p.enders| == |p.predictors| == a && |p.names| == n
    && (forall c :: 0 <= c < n ==> -a <= p.steps[c] < a && (p.steps[c] >= 0 ==> a <= c && c + 1 < n))
    && (forall x, c :: 0 <= x < a && c in p.starters[x] ==> 0 <= c < n)
    && (forall x, c :: 0 <= x < a && c in p.enders[x] ==> 0 <= c < n)
    && (forall x, c :: 0 <= x < a && c in p.predictors[x] ==> 0 <= c && c + 1 < n)
  }

  ghost predicate Sized(p: Tables) {
    |p.starters| == |p.enders| == |p.predictors| == |p.nts| && |p.names| == |p.steps|
  }

  /** Configuration `c` of those compiled so far. */
  ghost predicate DotOk(g: Grammar, p: Tables, dots: seq<Dot>, c: int)
    requires Sized(p) && |p.nts| <= |dots| <= |p.steps| && 0 <= c < |dots|
  {
    var a := |p.nts|;
    if c < a then dots[c].Tok? && p.steps[c] == c - a && p.names[c] == Name(p.nts[c], 0)
    else
      && dots[c].Dot? && IsRule(g, dots[c].head, dots[c].rhs) && dots[c].pos <= |dots[c].rhs|
      && -a <= p.steps[c] < a
      && (if dots[c].pos < |dots[c].rhs|
          then 0 <= p.steps[c] && p.nts[p.steps[c]] == dots[c].rhs[dots[c].pos]
               && c + 1 < |dots| && dots[c + 1] == Dot(dots[c].head, dots[c].rhs, dots[c].pos + 1)
          else p.steps[c] < 0 && p.nts[p.steps[c] + a] == dots[c].head)
      && (if dots[c].pos > 0 then p.names[c] == NoName
          else IsAlternative(g, p.names[c], dots[c].rhs) && p.names[c].head == dots[c].head)
      && (if dots[c].pos > 0 then c > a && dots[c - 1] == Dot(dots[c].head, dots[c].rhs, dots[c].pos - 1)
          else c > 0 && p.steps[c - 1] < 0)
  }

  ghost predicate ListsOk(p: Tables, dots: seq<Dot>, x: int)
    requires Sized(p) && |dots| <= |p.steps| && 0 <= x < |p.nts|
  {
    && (forall c :: c in p.starters[x] <==> |p.nts| <= c < |dots| && dots[c].Dot? && dots[c].pos == 0 && dots[c].head == p.nts[x])
    && (forall c :: c in p.enders[x] <==> 0 <= c < |dots| && p.steps[c] == x - |p.nts|)
    && (forall c :: c in p.predictors[x] <==> 0 <= c < |dots| && p.steps[c] == x)
  }

  /** The tables hold the rules compiled so far, and nothing else. */
  ghost predicate SoFar(g: Grammar, p: Tables, dots: seq<Dot>) {
    && Sized(p) && |p.nts| <= |dots| <= |p.steps|
    && (forall x, y :: 0 <= x < y < |p.nts| ==> p.nts[x] != p.nts[y])
    && (forall c :: 0 <= c < |dots| ==> DotOk(g, p, dots, c))
    && (forall x :: 0 <= x < |p.nts| ==> ListsOk(p, dots, x))
  }

  /** Configuration `c` begins the alternative with that name. */
  ghost predicate BeginsRule(p: Tables, dots: seq<Dot>, name: Name, rhs: seq<Symbol>, c: int)
    requires |dots| <= |p.names|
  {
    name.Name? && |p.nts| <= c < |dots| && dots[c] == Dot(name.head, rhs, 0) && p.names[c] == name
  }

  ghost predicate RuleListed(p: Tables, dots: seq<Dot>, name: Name, rhs: seq<Symbol>)
    requires |dots| <= |p.names|
  {
    exists c :: BeginsRule(p, dots, name, rhs, c)
  }

  ghost predicate StartedTwice(p: Tables, dots: seq<Dot>, name: Name, rhs: seq<Symbol>)
    requires |dots| <= |p.names|
  {
    exists c, d :: c < d && BeginsRule(p, dots, name, rhs, c) && BeginsRule(p, dots, name, rhs, d)
  }

  /** The tables repeat an alternative exactly when the grammar does. */
  ghost predicate Alike(g: Grammar, p: Tables, dots: seq<Dot>) {
    |dots| <= |p.names| && forall name, rhs :: StartedTwice(p, dots, name, rhs) <==> GivenTwice(g, name, rhs)
  }

  /** The tables hold the grammar, the whole grammar and nothing else. */
  ghost predicate Compiled(g: Grammar, p: Tables, dots: seq<Dot>) {
    && InRange(p) && |dots| == |p.steps| && SoFar(g, p, dots)
    && (forall name, rhs :: IsAlternative(g, name, rhs) ==> RuleListed(p, dots, name, rhs))
  }

  /** Complete tables stay in range. */
  lemma CompiledInRange(g: Grammar, p: Tables, dots: seq<Dot>)
    requires SoFar(g, p, dots) && |dots| == |p.steps|
    requires forall name, rhs :: IsAlternative(g, name, rhs) ==> RuleListed(p, dots, name, rhs)
    ensures Compiled(g, p, dots)
  {
    forall c | 0 <= c < |p.steps|
      ensures -|p.nts| <= p.steps[c] < |p.nts| && (p.steps[c] >= 0 ==> |p.nts| <= c && c + 1 < |p.steps|)
    {
      assert DotOk(g, p, dots, c);
    }
    forall x, c | 0 <= x < |p.nts| && c in p.starters[x]
      ensures 0 <= c < |p.steps|
    {
      assert ListsOk(p, dots, x);
    }
    forall x, c | 0 <= x < |p.nts| && c in p.enders[x]
      ensures 0 <= c < |p.steps|
    {
      assert ListsOk(p, dots, x);
    }
    forall x, c | 0 <= x < |p.nts| && c in p.predictors[x]
      ensures 0 <= c && c + 1 < |p.steps|
    {
      assert ListsOk(p, dots, x);
    }
  }

  // ---- the chart

  /** In state j: configuration `c`, begun at token `i`. */
  type Item = (int, int)

  type Chart = seq<set<Item>>

  /** What an item of state `j` claims. */
  ghost predicate ItemTrue(g: Grammar, toks: seq<Token>, p: Tables, dots: seq<Dot>, c: int, i: int, j: int) {
    && 0 <= c < |dots| && |p.nts| <= |dots| && 0 <= i <= j <= |toks|
    && match dots[c]
       case Tok => c < |p.nts| && j == i + 1 && p.nts[c] in toks[i].kinds
       case Dot(_, rhs, pos) => pos <= |rhs| && AllDerivable(g, toks, rhs[..pos], i, j)
  }

  ghost predicate AllTrue(g: Grammar, toks: seq<Token>, p: Tables, dots: seq<Dot>, items: set<Item>, j: int) {
    forall x :: x in items ==> ItemTrue(g, toks, p, dots, x.0, x.1, j)
  }

  /** Every item that waits for a nonterminal has brought in its rules. */
  ghost predicate Predicted(p: Tables, done: set<Item>, items: set<Item>, j: int) {
    forall x, s :: x in done && 0 <= x.0 < |p.steps| && 0 <= p.steps[x.0] < |p.starters| && s in p.starters[p.steps[x.0]]
      ==> (s, j) in items
  }

  /** Every completed nonterminal has moved on the items of state `i` that wait for it. */
  ghost predicate Completed(p: Tables, from: set<Item>, done: set<Item>, items: set<Item>, i: int) {
    forall x, y :: x in from && y in done && Advances(p, x, y, i) ==> (x.0 + 1, x.1) in items
  }

  /** Item `y`, begun at `i`, completes what item `x` of state `i` waits for. */
  ghost predicate Advances(p: Tables, x: Item, y: Item, i: int) {
    && 0 <= x.0 < |p.steps| && 0 <= y.0 < |p.steps| && p.steps[x.0] >= 0 && y.1 == i
    && p.steps[y.0] == p.steps[x.0] - |p.nts|
  }

  ghost predicate Scanned(p: Tables, toks: seq<Token>, items: set<Item>, j: int) {
    0 < j <= |toks| ==> forall c :: 0 <= c < |p.nts| && p.nts[c] in toks[j - 1].kinds ==> (c, j - 1) in items
  }

  /** State `j` with the states before it: nothing more can be added. */
  ghost predicate StateClosed(p: Tables, toks: seq<Token>, chart: Chart, j: int)
    requires 0 <= j < |chart|
  {
    && Scanned(p, toks, chart[j], j) && Predicted(p, chart[j], chart[j], j)
    && forall i :: 0 <= i <= j ==> Completed(p, chart[i], chart[j], chart[j], i)
  }

  ghost predicate Started(p: Tables, chart: Chart) {
    |p.starters| > 0 && |chart| > 0 && forall s :: s in p.starters[0] ==> (s, 0) in chart[0]
  }

  ghost predicate ChartClosed(p: Tables, toks: seq<Token>, chart: Chart) {
    && |chart| == |toks| + 1 && Started(p, chart)
    && forall j :: 0 <= j < |chart| ==> StateClosed(p, toks, chart, j)
  }

  // ---- soundness of the steps

  lemma StarterTrue(g: Grammar, toks: seq<Token>, p: Tables, dots: seq<Dot>, x: int, c: int, j: int)
    requires Compiled(g, p, dots) && 0 <= x < |p.nts| && c in p.starters[x] && 0 <= j <= |toks|
    ensures ItemTrue(g, toks, p, dots, c, j, j)
  {
    assert ListsOk(p, dots, x);
    assert dots[c].rhs[..0] == [];
    EmptyDerivable(g, toks, j);
  }

  /** A completed item derives its nonterminal. */
  lemma EnderDerives(g: Grammar, toks: seq<Token>, p: Tables, dots: seq<Dot>, e: int, i: int, j: int)
    requires Compiled(g, p, dots) && ItemTrue(g, toks, p, dots, e, i, j) && p.steps[e] < 0
    ensures Derivable(g, toks, p.nts[p.steps[e] + |p.nts|], i, j)
  {
    assert DotOk(g, p, dots, e);
    if e < |p.nts| {
      TokenDerivable(g, toks, p.nts[e], i);
    } else {
      assert dots[e].rhs[..dots[e].pos] == dots[e].rhs;
      RuleDerivable(g, toks, dots[e].head, dots[e].rhs, i, j);
    }
  }

  lemma AdvanceTrue(g: Grammar, toks: seq<Token>, p: Tables, dots: seq<Dot>, x: Item, y: Item, i: int, j: int)
    requires Compiled(g, p, dots) && Advances(p, x, y, i)
    requires ItemTrue(g, toks, p, dots, x.0, x.1, i) && ItemTrue(g, toks, p, dots, y.0, y.1, j)
    ensures ItemTrue(g, toks, p, dots, x.0 + 1, x.1, j)
  {
    EnderDerives(g, toks, p, dots, y.0, i, j);
    assert DotOk(g, p, dots, x.0);
    var d := dots[x.0];
    assert d.rhs[..d.pos + 1] == d.rhs[..d.pos] + [d.rhs[d.pos]];
    SymbolAppended(g, toks, d.rhs[..d.pos], d.rhs[d.pos], x.1, i, j);
  }

  // ---- completeness of a closed chart

  /** A rule begun in state `i` reaches every dot position up to which it derives tokens. */
  lemma {:induction false} RuleReached(g: Grammar, toks: seq<Token>, p: Tables, dots: seq<Dot>, chart: Chart,
                                       c: int, pos: nat, i: nat, j: nat, h: nat)
    requires Compiled(g, p, dots) && ChartClosed(p, toks, chart)
    requires |p.nts| <= c < |dots| && dots[c].Dot? && dots[c].pos == 0 && pos <= |dots[c].rhs|
    requires i < |chart| && (c, i) in chart[i] && DerivesAll(g, toks, dots[c].rhs[..pos], i, j, h)
    ensures i <= j < |chart| && c + pos < |dots| && dots[c + pos] == Dot(dots[c].head, dots[c].rhs, pos)
    ensures (c + pos, i) in chart[j]
    decreases h, 1 + pos
  {
    var rhs := dots[c].rhs;
    DerivesAllSpan(g, toks, rhs[..pos], i, j, h);
    if pos > 0 {
      var k := SplitLast(g, toks, rhs, pos, i, j, h);
      RuleReached(g, toks, p, dots, chart, c, pos - 1, i, k, h);
      var x := c + pos - 1;
      assert DotOk(g, p, dots, x);
      hide Compiled;
      hide DerivesAll;
      PredictedAt(p, toks, chart, x, i, k);
      var e := SymbolReached(g, toks, p, dots, chart, p.steps[x], k, j, h);
      AdvancedAt(p, toks, chart, (x, i), (e, k), k, j);
    }
  }

  lemma SplitLast(g: Grammar, toks: seq<Token>, rhs: seq<Symbol>, pos: nat, i: nat, j: nat, h: nat) returns (k: nat)
    requires 0 < pos <= |rhs| && DerivesAll(g, toks, rhs[..pos], i, j, h)
    ensures k <= j <= |toks| && DerivesAll(g, toks, rhs[..pos - 1], i, k, h) && Derives(g, toks, rhs[pos - 1], k, j, h)
  {
    var done := rhs[..pos];
    assert done[..pos - 1] == rhs[..pos - 1] && done[pos - 1] == rhs[pos - 1];
    k :| k <= j && DerivesAll(g, toks, done[..pos - 1], i, k, h) && Derives(g, toks, done[pos - 1], k, j, h);
    DerivesSpan(g, toks, rhs[pos - 1], k, j, h);
  }

  lemma PredictedAt(p: Tables, toks: seq<Token>, chart: Chart, x: int, i: int, k: int)
    requires ChartClosed(p, toks, chart) && 0 <= k < |chart| && (x, i) in chart[k]
    requires 0 <= x < |p.steps| && 0 <= p.steps[x] < |p.starters|
    ensures forall s :: s in p.starters[p.steps[x]] ==> (s, k) in chart[k]
  {
    assert StateClosed(p, toks, chart, k);
    assert (x, i).0 == x;
  }

  lemma AdvancedAt(p: Tables, toks: seq<Token>, chart: Chart, x: Item, y: Item, i: int, j: int)
    requires ChartClosed(p, toks, chart) && 0 <= i <= j < |chart| && x in chart[i] && y in chart[j] && Advances(p, x, y, i)
    ensures (x.0 + 1, x.1) in chart[j]
  {
    assert StateClosed(p, toks, chart, j);
    assert Completed(p, chart[i], chart[j], chart[j], i);
  }

  /** A nonterminal whose rules are in state `i` is completed wherever it derives. */
  lemma {:induction false} SymbolReached(g: Grammar, toks: seq<Token>, p: Tables, dots: seq<Dot>, chart: Chart,
                                         nt: int, i: nat, j: nat, h: nat) returns (e: int)
    requires Compiled(g, p, dots) && ChartClosed(p, toks, chart) && 0 <= nt < |p.nts|
    requires i < |chart| && forall s :: s in p.starters[nt] ==> (s, i) in chart[i]
    requires Derives(g, toks, p.nts[nt], i, j, h)
    ensures j < |chart| && e in p.enders[nt] && (e, i) in chart[j]
    ensures 0 <= e < |p.steps| && p.steps[e] == nt - |p.nts|
    decreases h, 0
  {
    if j == i + 1 && p.nts[nt] in toks[i].kinds {
      e := nt;
      TokenReached(g, toks, p, dots, chart, nt, i);
    } else {
      var rhs, c := RuleStart(g, toks, p, dots, nt, i, j, h);
      hide Compiled;
      hide ChartClosed;
      assert rhs[..|rhs|] == rhs;
      RuleReached(g, toks, p, dots, chart, c, |rhs|, i, j, h - 1);
      e := c + |rhs|;
      EndOfRule(g, p, dots, e, nt);
    }
  }

  lemma TokenReached(g: Grammar, toks: seq<Token>, p: Tables, dots: seq<Dot>, chart: Chart, nt: int, i: nat)
    requires Compiled(g, p, dots) && ChartClosed(p, toks, chart) && 0 <= nt < |p.nts|
    requires i < |toks| && p.nts[nt] in toks[i].kinds
    ensures nt in p.enders[nt] && (nt, i) in chart[i + 1] && p.steps[nt] == nt - |p.nts|
  {
    assert DotOk(g, p, dots, nt);
    assert ListsOk(p, dots, nt);
    assert StateClosed(p, toks, chart, i + 1);
  }

  lemma RuleStart(g: Grammar, toks: seq<Token>, p: Tables, dots: seq<Dot>, nt: int, i: nat, j: nat, h: nat)
    returns (rhs: seq<Symbol>, c: int)
    requires Compiled(g, p, dots) && 0 <= nt < |p.nts| && Derives(g, toks, p.nts[nt], i, j, h)
    requires i < |toks| ==> !(j == i + 1 && p.nts[nt] in toks[i].kinds)
    ensures DerivesAll(g, toks, rhs, i, j, h - 1)
    ensures |p.nts| <= c < |dots| && dots[c] == Dot(p.nts[nt], rhs, 0) && c in p.starters[nt]
  {
    rhs :| IsRule(g, p.nts[nt], rhs) && DerivesAll(g, toks, rhs, i, j, h - 1);
    var name := RuleNamed(g, p.nts[nt], rhs);
    assert RuleListed(p, dots, name, rhs);
    c :| BeginsRule(p, dots, name, rhs, c);
    assert ListsOk(p, dots, nt);
  }

  lemma EndOfRule(g: Grammar, p: Tables, dots: seq<Dot>, e: int, nt: int)
    requires Compiled(g, p, dots) && |p.nts| <= e < |dots| && dots[e].Dot? && dots[e].pos == |dots[e].rhs|
    requires 0 <= nt < |p.nts| && dots[e].head == p.nts[nt]
    ensures e in p.enders[nt] && p.steps[e] == nt - |p.nts|
  {
    assert DotOk(g, p, dots, e);
    assert ListsOk(p, dots, nt);
    var y := p.steps[e] + |p.nts|;
    assert p.nts[y] == p.nts[nt];
    assert y == nt;
  }

  /** The parser's verdict for the goal: some ender of nonterminal 0 spans the whole input. */
  ghost predicate GoalReached(p: Tables, toks: seq<Token>, chart: Chart) {
    |p.enders| > 0 && |chart| == |toks| + 1 && exists e :: e in p.enders[0] && (e, 0) in chart[|toks|]
  }

  /** A closed chart of true items decides derivability. */
  lemma ChartDecides(g: Grammar, toks: seq<Token>, p: Tables, dots: seq<Dot>, chart: Chart)
    requires Compiled(g, p, dots) && ChartClosed(p, toks, chart)
    requires forall j :: 0 <= j < |chart| ==> AllTrue(g, toks, p, dots, chart[j], j)
    ensures |p.nts| > 0 && (GoalReached(p, toks, chart) <==> Derivable(g, toks, p.nts[0], 0, |toks|))
  {
    if GoalReached(p, toks, chart) {
      var e :| e in p.enders[0] && (e, 0) in chart[|toks|];
      assert ListsOk(p, dots, 0);
      assert AllTrue(g, toks, p, dots, chart[|toks|], |toks|);
      EnderDerives(g, toks, p, dots, e, 0, |toks|);
    }
    if Derivable(g, toks, p.nts[0], 0, |toks|) {
      var h :| Derives(g, toks, p.nts[0], 0, |toks|, h);
      var e := SymbolReached(g, toks, p, dots, chart, 0, 0, |toks|, h);
    }
  }
}
