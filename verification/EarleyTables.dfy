/** Compiling a grammar to the parser's tables, and the parser from end to end. */
module EarleyTables {
  import opened EarleyGrammar
  import opened EarleyStates
  import opened EarleyParser
  import opened EarleyFilter

  // ---- the nonterminals: every name of the grammar once, in the order of first use

  ghost predicate Mentions(g: Grammar, s: Symbol) {
    exists d :: d in g && (d.head == s || exists rhs :: rhs in d.rules && s in rhs)
  }

  function ReverseNames(s: seq<Symbol>): (r: seq<Symbol>)
    ensures |r| == |s|
  {
    if s == [] then [] else ReverseNames(s[1..]) + [s[0]]
  }

  ghost predicate NoTwice(s: seq<Symbol>) {
    forall x, y :: 0 <= x < y < |s| ==> s[x] != s[y]
  }

  lemma {:induction false} ReverseNamesAt(s: seq<Symbol>, k: nat)
    requires k < |s|
    ensures ReverseNames(s)[k] == s[|s| - 1 - k]
  {
    if k < |s| - 1 {
      ReverseNamesAt(s[1..], k);
    }
  }

  lemma ReverseNamesSame(s: seq<Symbol>)
    requires NoTwice(s)
    ensures NoTwice(ReverseNames(s)) && forall n :: n in ReverseNames(s) <==> n in s
  {
    var r := ReverseNames(s);
    forall k | 0 <= k < |s|
      ensures r[k] == s[|s| - 1 - k] && r[|s| - 1 - k] == s[k]
    {
      ReverseNamesAt(s, k);
      ReverseNamesAt(s, |s| - 1 - k);
    }
    forall x, y | 0 <= x < y < |r|
      ensures r[x] != r[y]
    {
      assert r[x] == s[|s| - 1 - x] && r[y] == s[|s| - 1 - y];
    }
    forall n | n in s
      ensures n in r
    {
      var k :| 0 <= k < |s| && s[k] == n;
      assert r[|s| - 1 - k] == n;
    }
  }

  /** `sc_member(nt, nts) !== false ? nts : new sc_Pair(nt, nts)` */
  function AddName(nt: Symbol, nts: seq<Symbol>): (r: seq<Symbol>)
    ensures NoTwice(nts) ==> NoTwice(r)
    ensures forall n :: n in r <==> n in nts || n == nt
    ensures nts != [] ==> r != [] && r[|r| - 1] == nts[|nts| - 1]
    ensures nts == [] ==> r == [nt]
  {
    if nt in nts then nts else [nt] + nts
  }

  /** The names of one rule come to the list. */
  method RuleNames(rhs: seq<Symbol>, nts0: seq<Symbol>) returns (nts: seq<Symbol>)
    requires NoTwice(nts0) && nts0 != []
    ensures NoTwice(nts) && nts != [] && nts[|nts| - 1] == nts0[|nts0| - 1]
    ensures forall n :: n in nts <==> n in nts0 || n in rhs
  {
    var l := rhs;
    nts := nts0;
    ghost var t: nat := 0;
    while l != []
      invariant t <= |rhs| && l == rhs[t..]
      invariant NoTwice(nts) && nts != [] && nts[|nts| - 1] == nts0[|nts0| - 1]
      invariant forall n :: n in nts <==> n in nts0 || n in rhs[..t]
      decreases |l|
    {
      nts := AddName(l[0], nts);
      assert rhs[..t + 1] == rhs[..t] + [l[0]];
      l := l[1..];
      t := t + 1;
    }
    assert rhs[..t] == rhs;
  }

  /** The names of the rules of one definition. */
  method RulesNames(rules: seq<seq<Symbol>>, nts0: seq<Symbol>) returns (nts: seq<Symbol>)
    requires NoTwice(nts0) && nts0 != []
    ensures NoTwice(nts) && nts != [] && nts[|nts| - 1] == nts0[|nts0| - 1]
    ensures forall n :: n in nts <==> n in nts0 || exists rhs :: rhs in rules && n in rhs
  {
    nts := nts0;
    var l := rules;
    ghost var t: nat := 0;
    while l != []
      invariant t <= |rules| && l == rules[t..]
      invariant NoTwice(nts) && nts != [] && nts[|nts| - 1] == nts0[|nts0| - 1]
      invariant forall n :: n in nts <==> n in nts0 || exists rhs :: rhs in rules[..t] && n in rhs
      decreases |l|
    {
      nts := RuleNames(l[0], nts);
      assert rules[..t + 1] == rules[..t] + [l[0]];
      l := l[1..];
      t := t + 1;
    }
    assert rules[..t] == rules;
  }

  method Nonterminals(g: Grammar) returns (nts: seq<Symbol>)
    ensures NoTwice(nts) && (forall n :: n in nts <==> Mentions(g, n))
    ensures g != [] ==> nts != [] && nts[0] == g[0].head
  {
    hide *;
    var acc: seq<Symbol> := [];
    var l := g;
    ghost var t: nat := 0;
    NoNames();
    while l != []
      invariant t <= |g| && l == g[t..] && NoTwice(acc)
      invariant t > 0 ==> acc != [] && acc[|acc| - 1] == g[0].head
      invariant t == 0 ==> acc == []
      invariant forall n :: n in acc <==> Mentions(g[..t], n)
      decreases |l|
    {
      ghost var before := acc;
      acc := AddName(l[0].head, acc);
      ghost var mid := acc;
      acc := RulesNames(l[0].rules, acc);
      assert g[..t + 1] == g[..t] + [l[0]];
      NamesStep(g[..t], l[0], before, mid, acc);
      l := l[1..];
      t := t + 1;
    }
    assert g[..t] == g;
    ReverseNamesSame(acc);
    nts := ReverseNames(acc);
    if g != [] {
      ReverseNamesAt(acc, 0);
    }
  }

  lemma NoNames()
    ensures NoTwice([]) && forall n :: !Mentions([], n)
  {}

  lemma NamesStep(g: Grammar, d: Def, before: seq<Symbol>, mid: seq<Symbol>, after: seq<Symbol>)
    requires forall n :: n in before <==> Mentions(g, n)
    requires forall n :: n in mid <==> n in before || n == d.head
    requires forall n :: n in after <==> n in mid || exists rhs :: rhs in d.rules && n in rhs
    ensures forall n :: n in after <==> Mentions(g + [d], n)
  {
    MentionsStep(g, d);
    hide Mentions;
  }

  lemma MentionsStep(g: Grammar, d: Def)
    ensures forall s :: Mentions(g + [d], s) <==> Mentions(g, s) || d.head == s || exists rhs :: rhs in d.rules && s in rhs
  {
    forall s
      ensures Mentions(g + [d], s) <==> Mentions(g, s) || d.head == s || exists rhs :: rhs in d.rules && s in rhs
    {
      if Mentions(g, s) {
        var e :| e in g && (e.head == s || exists rhs :: rhs in e.rules && s in rhs);
        assert e in g + [d];
      }
      if d.head == s || exists rhs :: rhs in d.rules && s in rhs {
        assert d in g + [d];
      }
    }
  }

  // ---- the tables

  /** The configurations of one rule. */
  ghost function RuleDots(head: Symbol, rhs: seq<Symbol>): (r: seq<Dot>) {
    seq(|rhs| + 1, k requires 0 <= k => Dot(head, rhs, k))
  }

  /** `q` comes from `p` by compiling `rhs` for `head` at configuration `n`. */
  ghost predicate RuleAdded(p: Tables, q: Tables, head: Symbol, rhs: seq<Symbol>, num: int, n: nat) {
    && Sized(p) && Sized(q) && q.nts == p.nts && |q.steps| == |p.steps| && n + |rhs| < |p.steps|
    && StepsAdded(p, q, head, rhs, n) && ListsAdded(p, q, head, rhs, n)
    && (forall c :: 0 <= c < |p.steps| && c != n ==> q.names[c] == p.names[c]) && q.names[n] == Name(head, num)
  }

  ghost predicate StepsAdded(p: Tables, q: Tables, head: Symbol, rhs: seq<Symbol>, n: nat)
    requires |q.steps| == |p.steps| && n + |rhs| < |p.steps|
  {
    && (forall c :: 0 <= c < |p.steps| && !(n <= c <= n + |rhs|) ==> q.steps[c] == p.steps[c])
    && (forall c :: n <= c < n + |rhs| ==> 0 <= q.steps[c] < |p.nts| && p.nts[q.steps[c]] == rhs[c - n])
    && -|p.nts| <= q.steps[n + |rhs|] < 0 && p.nts[q.steps[n + |rhs|] + |p.nts|] == head
  }

  ghost predicate ListsAdded(p: Tables, q: Tables, head: Symbol, rhs: seq<Symbol>, n: nat)
    requires Sized(p) && Sized(q) && p.nts == q.nts
  {
    forall x :: 0 <= x < |p.nts| ==>
      && (forall c :: c in q.starters[x] <==> c in p.starters[x] || (c == n && p.nts[x] == head))
      && (forall c :: c in q.enders[x] <==> c in p.enders[x] || (c == n + |rhs| && p.nts[x] == head))
      && (forall c :: c in q.predictors[x] <==> c in p.predictors[x] || (n <= c < n + |rhs| && p.nts[x] == rhs[c - n]))
  }

  /** The loop over a rule's symbols. */
  method AddSymbols(rhs: seq<Symbol>, conf: nat, nts: seq<Symbol>, steps0: seq<int>, predictors0: seq<seq<int>>)
    returns (steps: seq<int>, predictors: seq<seq<int>>, end: nat)
    requires |predictors0| == |nts| && conf + |rhs| < |steps0| && NoTwice(nts) && forall s :: s in rhs ==> s in nts
    ensures end == conf + |rhs| && |steps| == |steps0| && |predictors| == |nts|
    ensures forall c :: 0 <= c < |steps| && !(conf <= c < end) ==> steps[c] == steps0[c]
    ensures forall c :: conf <= c < end ==> 0 <= steps[c] < |nts| && nts[steps[c]] == rhs[c - conf]
    ensures forall x, c :: 0 <= x < |nts| ==>
              (c in predictors[x] <==> c in predictors0[x] || (conf <= c < end && nts[x] == rhs[c - conf]))
  {
    steps, predictors, end := steps0, predictors0, conf;
    var l := rhs;
    while l != []
      invariant conf <= end <= conf + |rhs| && l == rhs[end - conf..] && |steps| == |steps0| && |predictors| == |nts|
      invariant forall c :: 0 <= c < |steps| && !(conf <= c < end) ==> steps[c] == steps0[c]
      invariant forall c :: conf <= c < end ==> 0 <= steps[c] < |nts| && nts[steps[c]] == rhs[c - conf]
      invariant forall x, c :: 0 <= x < |nts| ==>
                  (c in predictors[x] <==> c in predictors0[x] || (conf <= c < end && nts[x] == rhs[c - conf]))
      decreases |l|
    {
      var nt := l[0];
      assert nt == rhs[end - conf] && nt in rhs;
      var i := Ind(nt, nts);
      steps := steps[end := i];
      predictors := predictors[i := [end] + predictors[i]];
      l := l[1..];
      end := end + 1;
    }
  }

  /** One rule of `def_loop`. */
  method AddRule(p: Tables, head: Symbol, rhs: seq<Symbol>, ruleNum: int, conf: nat) returns (q: Tables, end: nat)
    requires Sized(p) && NoTwice(p.nts) && head in p.nts && (forall s :: s in rhs ==> s in p.nts)
    requires conf + |rhs| < |p.steps|
    ensures RuleAdded(p, q, head, rhs, ruleNum, conf) && end == conf + |rhs| + 1
    ensures forall x :: 0 <= x < |p.nts| ==> q.enders[x] == p.enders[x] || q.enders[x] == [conf + |rhs|] + p.enders[x]
  {
    var names := p.names[conf := Name(head, ruleNum)];
    var h := Ind(head, p.nts);
    var starters := p.starters[h := [conf] + p.starters[h]];
    var steps, predictors, last := AddSymbols(rhs, conf, p.nts, p.steps, p.predictors);
    steps := steps[last := h - |p.nts|];
    var enders := p.enders[h := [last] + p.enders[h]];
    q := Tables(p.nts, starters, enders, predictors, steps, names);
    end := last + 1;
    AddedLists(p, q, head, rhs, conf, h);
  }

  lemma AddedLists(p: Tables, q: Tables, head: Symbol, rhs: seq<Symbol>, n: nat, h: nat)
    requires Sized(p) && Sized(q) && NoTwice(p.nts) && q.nts == p.nts && h < |p.nts| && p.nts[h] == head
    requires q.starters == p.starters[h := [n] + p.starters[h]] && q.enders == p.enders[h := [n + |rhs|] + p.enders[h]]
    requires forall x, c :: 0 <= x < |p.nts| ==>
               (c in q.predictors[x] <==> c in p.predictors[x] || (n <= c < n + |rhs| && p.nts[x] == rhs[c - n]))
    ensures ListsAdded(p, q, head, rhs, n)
  {
    forall x | 0 <= x < |p.nts|
      ensures x == h <==> p.nts[x] == head
    {
    }
  }

  /** Compiling one more rule keeps what the tables mean. */
  lemma RuleCompiled(g: Grammar, p: Tables, q: Tables, dots: seq<Dot>, head: Symbol, rhs: seq<Symbol>, num: int)
    requires SoFar(g, p, dots) && RuleAdded(p, q, head, rhs, num, |dots|) && |p.nts| > 0
    requires IsRule(g, head, rhs) && IsAlternative(g, Name(head, num), rhs)
    requires forall c :: |dots| <= c < |p.names| ==> p.names[c] == NoName
    requires p.steps[|dots| - 1] < 0
    ensures SoFar(g, q, dots + RuleDots(head, rhs))
    ensures q.steps[|dots| + |rhs|] < 0
    ensures forall c :: |dots| + |rhs| + 1 <= c < |q.names| ==> q.names[c] == NoName
  {
    var dots' := dots + RuleDots(head, rhs);
    forall c | 0 <= c < |dots'|
      ensures DotOk(g, q, dots', c)
    {
      if c < |dots| {
        assert DotOk(g, p, dots, c);
      } else {
        var k := c - |dots|;
        assert dots'[c] == Dot(head, rhs, k);
      }
    }
    forall x | 0 <= x < |q.nts|
      ensures ListsOk(q, dots', x)
    {
      assert ListsOk(p, dots, x);
      RuleLists(p, q, dots, head, rhs, num, x);
    }
  }

  lemma RuleLists(p: Tables, q: Tables, dots: seq<Dot>, head: Symbol, rhs: seq<Symbol>, num: int, x: nat)
    requires Sized(p) && |p.nts| <= |dots| <= |p.steps| && NoTwice(p.nts) && x < |p.nts| && ListsOk(p, dots, x)
    requires RuleAdded(p, q, head, rhs, num, |dots|)
    ensures ListsOk(q, dots + RuleDots(head, rhs), x)
  {
    var n, dots' := |dots|, dots + RuleDots(head, rhs);
    forall c | 0 <= c < |dots'|
      ensures c < n ==> q.steps[c] == p.steps[c] && dots'[c] == dots[c]
      ensures c >= n ==> dots'[c] == Dot(head, rhs, c - n)
      ensures n <= c < n + |rhs| ==> (q.steps[c] == x <==> p.nts[x] == rhs[c - n]) && q.steps[c] != x - |p.nts|
      ensures c == n + |rhs| ==> (q.steps[c] == x - |p.nts| <==> p.nts[x] == head) && q.steps[c] != x
    {
    }
  }

  /** The configurations that rules take: one for each place of the dot. */
  function RuleConfs(rules: seq<seq<Symbol>>): (n: nat) {
    if rules == [] then 0 else |rules[0]| + 1 + RuleConfs(rules[1..])
  }

  function DefConfs(g: Grammar): (n: nat) {
    if g == [] then 0 else RuleConfs(g[0].rules) + DefConfs(g[1..])
  }

  /** The tables between two rules. */
  ghost predicate Building(g: Grammar, p: Tables, dots: seq<Dot>) {
    && SoFar(g, p, dots) && 0 < |p.nts|
    && p.steps[|dots| - 1] < 0 && forall c :: |dots| <= c < |p.names| ==> p.names[c] == NoName
  }

  // ---- where the configurations come from

  ghost predicate EndersOnce(p: Tables, n: int) {
    forall x :: 0 <= x < |p.enders| ==> Distinct(p.enders[x]) && forall c :: c in p.enders[x] ==> c < n
  }

  /** Alternative `rule` of definition `s` is one of those before number `num` of definition `t`. */
  ghost predicate Before(s: int, rule: int, t: int, num: int) {
    s < t || (s == t && rule < num)
  }

  /** `c` begins the alternative with this name of definition `s`. */
  ghost predicate StartsFrom(p: Tables, dots: seq<Dot>, from: seq<int>, name: Name, rhs: seq<Symbol>, s: int, c: int)
    requires |from| == |dots| <= |p.names|
  {
    BeginsRule(p, dots, name, rhs, c) && from[c] == s
  }

  /** A configuration that begins an alternative is named by the definition that it comes from. */
  ghost predicate FromOk(g: Grammar, p: Tables, dots: seq<Dot>, from: seq<int>, t: int, num: int, c: int)
    requires |from| == |dots| <= |p.names| && 0 <= c < |dots|
  {
    p.names[c].Name? && dots[c].Dot? ==>
      GivenBy(g, p.names[c], dots[c].rhs, from[c]) && Before(from[c], p.names[c].rule, t, num)
  }

  ghost predicate StartFound(p: Tables, dots: seq<Dot>, from: seq<int>, name: Name, rhs: seq<Symbol>, s: int)
    requires |from| == |dots| <= |p.names|
  {
    exists c :: StartsFrom(p, dots, from, name, rhs, s, c)
  }

  /** The alternatives before number `num` of definition `t` have each one configuration that begins them. */
  ghost predicate Naming(g: Grammar, p: Tables, dots: seq<Dot>, from: seq<int>, t: int, num: int) {
    && |from| == |dots| <= |p.names| && num > 0 && EndersOnce(p, |dots|)
    && (forall c :: 0 <= c < |dots| ==> FromOk(g, p, dots, from, t, num, c))
    && (forall c, d :: 0 <= c < d < |dots| && dots[c].Dot? && dots[d].Dot? && p.names[c].Name? && p.names[c] == p.names[d] ==>
          from[c] != from[d])
    && (forall name, rhs, s :: GivenBy(g, name, rhs, s) && Before(s, name.rule, t, num) ==> StartFound(p, dots, from, name, rhs, s))
  }

  /** The configurations of tokens come from no definition. */
  ghost function NoneFrom(n: nat): (from: seq<int>)
    ensures |from| == n
  {
    seq(n, _ => -1)
  }

  /** Where the configurations of one more alternative come from. */
  ghost function FromMore(from: seq<int>, t: int, n: nat): (r: seq<int>)
    ensures |r| == |from| + n + 1 && r[..|from|] == from && forall c :: |from| <= c < |r| ==> r[c] == t
  {
    from + seq(n + 1, _ => t)
  }

  lemma NamedNext(g: Grammar, p: Tables, q: Tables, dots: seq<Dot>, from: seq<int>, t: nat, num: int, rhs: seq<Symbol>)
    requires Naming(g, p, dots, from, t, num) && t < |g| && num <= |g[t].rules| && g[t].rules[num - 1] == rhs
    requires RuleAdded(p, q, g[t].head, rhs, num, |dots|) && forall c :: |dots| <= c < |p.names| ==> p.names[c] == NoName
    requires forall x :: 0 <= x < |p.nts| ==> q.enders[x] == p.enders[x] || q.enders[x] == [|dots| + |rhs|] + p.enders[x]
    requires |p.nts| <= |dots|
    ensures Naming(g, q, dots + RuleDots(g[t].head, rhs), FromMore(from, t, |rhs|), t, num + 1)
  {
    var n, next := |dots|, num + 1;
    var dots', from' := dots + RuleDots(g[t].head, rhs), FromMore(from, t, |rhs|);
    EndersMore(p, q, n, |rhs|);
    hide EndersOnce;
    hide StepsAdded;
    hide ListsAdded;
    hide FromMore;
    forall c | 0 <= c < n
      ensures q.names[c] == p.names[c] && dots'[c] == dots[c] && from'[c] == from[c]
    {
      assert from'[..n][c] == from[c];
    }
    assert dots'[n] == Dot(g[t].head, rhs, 0) && q.names[n] == Name(g[t].head, num) && from'[n] == t;
    forall c | n < c < |dots'|
      ensures q.names[c] == NoName
    {}
    hide RuleAdded;
    hide RuleDots;
    forall c | 0 <= c < |dots'|
      ensures FromOk(g, q, dots', from', t, next, c)
    {
      if c < n {
        assert FromOk(g, p, dots, from, t, num, c);
      }
    }
    forall c | 0 <= c < n && dots'[c].Dot? && q.names[c] == q.names[n]
      ensures from'[c] != t
    {
      assert FromOk(g, p, dots, from, t, num, c);
    }
    forall name, rhs', s | GivenBy(g, name, rhs', s) && Before(s, name.rule, t, next)
      ensures StartFound(q, dots', from', name, rhs', s)
    {
      if Before(s, name.rule, t, num) {
        assert StartFound(p, dots, from, name, rhs', s);
        var c :| StartsFrom(p, dots, from, name, rhs', s, c);
        assert StartsFrom(q, dots', from', name, rhs', s, c);
      } else {
        assert StartsFrom(q, dots', from', name, rhs', s, n);
      }
    }
  }

  lemma EndersMore(p: Tables, q: Tables, n: nat, more: nat)
    requires EndersOnce(p, n) && |q.enders| == |p.enders|
    requires forall x :: 0 <= x < |p.enders| ==> q.enders[x] == p.enders[x] || q.enders[x] == [n + more] + p.enders[x]
    ensures EndersOnce(q, n + more + 1)
  {
    forall x | 0 <= x < |q.enders|
      ensures Distinct(q.enders[x]) && forall c :: c in q.enders[x] ==> c < n + more + 1
    {
      assert forall c :: c in p.enders[x] ==> c < n;
      assert forall t :: 0 <= t < |p.enders[x]| ==> p.enders[x][t] in p.enders[x];
    }
  }

  lemma NamedDef(g: Grammar, p: Tables, dots: seq<Dot>, from: seq<int>, t: nat, num: int)
    requires Naming(g, p, dots, from, t, num) && t < |g| && num == |g[t].rules| + 1
    ensures Naming(g, p, dots, from, t + 1, 1)
  {
    var next := t + 1;
    forall c | 0 <= c < |dots|
      ensures FromOk(g, p, dots, from, next, 1, c)
    {
      assert FromOk(g, p, dots, from, t, num, c);
    }
    forall name, rhs, s | GivenBy(g, name, rhs, s) && Before(s, name.rule, next, 1)
      ensures StartFound(p, dots, from, name, rhs, s)
    {
      assert Before(s, name.rule, t, num);
    }
  }

  /** When every definition has been compiled, every alternative is listed, and the tables repeat what the grammar repeats. */
  lemma NamedAll(g: Grammar, p: Tables, dots: seq<Dot>, from: seq<int>)
    requires Naming(g, p, dots, from, |g|, 1)
    ensures |dots| <= |p.names| && EndersOnce(p, |dots|) && Alike(g, p, dots)
    ensures forall name, rhs :: IsAlternative(g, name, rhs) ==> RuleListed(p, dots, name, rhs)
  {
    hide EndersOnce;
    forall name, rhs | IsAlternative(g, name, rhs)
      ensures RuleListed(p, dots, name, rhs)
    {
      var d :| d in g && d.head == name.head && 1 <= name.rule <= |d.rules| && d.rules[name.rule - 1] == rhs;
      var s :| 0 <= s < |g| && g[s] == d;
      var c := StartOf(g, p, dots, from, name, rhs, s);
    }
    forall name, rhs
      ensures StartedTwice(p, dots, name, rhs) <==> GivenTwice(g, name, rhs)
    {
      if StartedTwice(p, dots, name, rhs) {
        var c, d :| c < d && BeginsRule(p, dots, name, rhs, c) && BeginsRule(p, dots, name, rhs, d);
        assert FromOk(g, p, dots, from, |g|, 1, c) && FromOk(g, p, dots, from, |g|, 1, d);
        assert GivenBy(g, name, rhs, from[c]) && GivenBy(g, name, rhs, from[d]) && from[c] != from[d];
      }
      if GivenTwice(g, name, rhs) {
        var s, t :| 0 <= s < t < |g| && GivenBy(g, name, rhs, s) && GivenBy(g, name, rhs, t);
        var c := StartOf(g, p, dots, from, name, rhs, s);
        var d := StartOf(g, p, dots, from, name, rhs, t);
        assert c < d || d < c;
      }
    }
  }

  lemma StartOf(g: Grammar, p: Tables, dots: seq<Dot>, from: seq<int>, name: Name, rhs: seq<Symbol>, s: int) returns (c: int)
    requires Naming(g, p, dots, from, |g|, 1) && GivenBy(g, name, rhs, s)
    ensures BeginsRule(p, dots, name, rhs, c) && from[c] == s
  {
    assert Before(s, name.rule, |g|, 1);
    assert StartFound(p, dots, from, name, rhs, s);
    c :| StartsFrom(p, dots, from, name, rhs, s, c);
  }

  /** `rule_loop`: the rules of one definition. */
  method AddRules(g: Grammar, d: Def, conf0: nat, p0: Tables, ghost dots0: seq<Dot>, ghost from0: seq<int>, ghost at: nat)
    returns (p: Tables, conf: nat, ghost dots: seq<Dot>, ghost from: seq<int>)
    requires at < |g| && g[at] == d
    requires Building(g, p0, dots0) && conf0 == |dots0|
    requires forall s :: Mentions(g, s) ==> s in p0.nts
    requires |dots0| + RuleConfs(d.rules) <= |p0.steps|
    requires Naming(g, p0, dots0, from0, at, 1)
    ensures Building(g, p, dots) && conf == |dots| == |dots0| + RuleConfs(d.rules)
    ensures p.nts == p0.nts && |p.steps| == |p0.steps|
    ensures Naming(g, p, dots, from, at, |d.rules| + 1)
  {
    hide *;
    p, conf, dots, from := p0, conf0, dots0, from0;
    var l := d.rules;
    ghost var t: nat := 0;
    var num := 1;
    BuildingParts(g, p, dots);
    while l != []
      invariant t <= |d.rules| && l == d.rules[t..] && Building(g, p, dots) && conf == |dots| <= |p.names| && num == t + 1
      invariant |dots| + RuleConfs(l) == |dots0| + RuleConfs(d.rules) && p.nts == p0.nts && |p.steps| == |p0.steps|
      invariant Naming(g, p, dots, from, at, num)
      decreases |l|
    {
      assert l[0] == d.rules[t] && l[0] in d.rules;
      assert d in g;
      RuleOf(g, d, t);
      RuleConfsStep(l);
      BuildingParts(g, p, dots);
      p, conf := AddNextRule(g, p, d.head, l[0], num, conf, dots, from, at);
      dots, from := dots + RuleDots(d.head, l[0]), FromMore(from, at, |l[0]|);
      BuildingParts(g, p, dots);
      l := l[1..];
      num := num + 1;
      t := t + 1;
    }
    RuleConfsNone(l);
  }

  lemma BuildingParts(g: Grammar, p: Tables, dots: seq<Dot>)
    requires Building(g, p, dots)
    ensures |dots| <= |p.names| == |p.steps| && 0 < |p.nts| <= |dots| && |p.enders| == |p.nts|
    ensures forall c :: |dots| <= c < |p.names| ==> p.names[c] == NoName
  {}

  lemma RuleConfsStep(l: seq<seq<Symbol>>)
    requires l != []
    ensures RuleConfs(l) == |l[0]| + 1 + RuleConfs(l[1..])
  {}

  lemma RuleConfsNone(l: seq<seq<Symbol>>)
    requires l == []
    ensures RuleConfs(l) == 0
  {}

  lemma RuleOf(g: Grammar, d: Def, t: nat)
    requires d in g && t < |d.rules|
    ensures var rhs := d.rules[t];
      && IsRule(g, d.head, rhs) && IsAlternative(g, Name(d.head, t + 1), rhs)
      && Mentions(g, d.head) && forall s :: s in rhs ==> Mentions(g, s)
  {
    assert d.rules[t] in d.rules;
  }

  method AddNextRule(g: Grammar, p: Tables, head: Symbol, rhs: seq<Symbol>, num: int, conf: nat, ghost dots: seq<Dot>,
                     ghost from: seq<int>, ghost at: nat)
    returns (q: Tables, end: nat)
    requires Building(g, p, dots) && conf == |dots| && conf + |rhs| < |p.steps|
    requires IsRule(g, head, rhs) && IsAlternative(g, Name(head, num), rhs)
    requires head in p.nts && forall s :: s in rhs ==> s in p.nts
    requires num > 0 && at < |g| && g[at].head == head && Naming(g, p, dots, from, at, num)
    requires num <= |g[at].rules| && g[at].rules[num - 1] == rhs
    ensures Building(g, q, dots + RuleDots(head, rhs)) && q.nts == p.nts && |q.steps| == |p.steps|
    ensures end == conf + |rhs| + 1 == |dots + RuleDots(head, rhs)|
    ensures Naming(g, q, dots + RuleDots(head, rhs), FromMore(from, at, |rhs|), at, num + 1)
  {
    hide *;
    SoFarNow(g, p, dots);
    BuildingParts(g, p, dots);
    q, end := AddRule(p, head, rhs, num, conf);
    RuleCompiled(g, p, q, dots, head, rhs, num);
    NamedNext(g, p, q, dots, from, at, num, rhs);
    AddedSizes(p, q, head, rhs, num, conf);
    RuleDotsLength(head, rhs);
    BuildingIntro(g, q, dots + RuleDots(head, rhs));
  }

  lemma SoFarNow(g: Grammar, p: Tables, dots: seq<Dot>)
    requires Building(g, p, dots)
    ensures SoFar(g, p, dots) && Sized(p) && NoTwice(p.nts) && 0 < |dots| <= |p.steps| && p.steps[|dots| - 1] < 0
  {}

  lemma BuildingIntro(g: Grammar, p: Tables, dots: seq<Dot>)
    requires SoFar(g, p, dots) && 0 < |p.nts| && 0 < |dots| <= |p.steps| && p.steps[|dots| - 1] < 0
    requires forall c :: |dots| <= c < |p.names| ==> p.names[c] == NoName
    ensures Building(g, p, dots)
  {}

  lemma AddedSizes(p: Tables, q: Tables, head: Symbol, rhs: seq<Symbol>, num: int, n: nat)
    requires RuleAdded(p, q, head, rhs, num, n)
    ensures q.nts == p.nts && |q.steps| == |p.steps| == |q.names|
  {}

  lemma RuleDotsLength(head: Symbol, rhs: seq<Symbol>)
    ensures |RuleDots(head, rhs)| == |rhs| + 1
  {}

  /** `def_loop`: all definitions. */
  method AddDefs(g: Grammar, p0: Tables, ghost dots0: seq<Dot>, ghost from0: seq<int>) returns (p: Tables, ghost dots: seq<Dot>)
    requires Building(g, p0, dots0) && |dots0| == |p0.nts| && |p0.steps| == |p0.nts| + DefConfs(g)
    requires forall s :: Mentions(g, s) ==> s in p0.nts
    requires Naming(g, p0, dots0, from0, 0, 1)
    ensures Building(g, p, dots) && |dots| == |p.steps| == |p.names| && p.nts == p0.nts
    ensures EndersOnce(p, |dots|) && Alike(g, p, dots)
    ensures forall name, rhs :: IsAlternative(g, name, rhs) ==> RuleListed(p, dots, name, rhs)
  {
    hide *;
    p, dots := p0, dots0;
    ghost var from := from0;
    var conf := |p0.nts|;
    var l := g;
    ghost var t: nat := 0;
    BuildingParts(g, p, dots);
    while l != []
      invariant t <= |g| && l == g[t..] && Building(g, p, dots) && conf == |dots| <= |p.names| == |p.steps|
      invariant |dots| + DefConfs(l) == |p.steps| && p.nts == p0.nts
      invariant Naming(g, p, dots, from, t, 1)
      decreases |l|
    {
      assert l[0] == g[t] && l[0] in g;
      DefConfsStep(l);
      p, conf, dots, from := AddRules(g, l[0], conf, p, dots, from, t);
      BuildingParts(g, p, dots);
      NamedDef(g, p, dots, from, t, |l[0].rules| + 1);
      l := l[1..];
      t := t + 1;
    }
    DefConfsNone(l);
    NamedAll(g, p, dots, from);
  }

  lemma DefConfsStep(l: Grammar)
    requires l != []
    ensures DefConfs(l) == RuleConfs(l[0].rules) + DefConfs(l[1..])
  {}

  lemma DefConfsNone(l: Grammar)
    requires l == []
    ensures DefConfs(l) == 0
  {}

  /** The tables before the first rule: one configuration for each kind of token. */
  method StartTables(nts: seq<Symbol>, nbConfs: nat) returns (p: Tables, ghost dots: seq<Dot>)
    requires nts != [] && NoTwice(nts) && |nts| <= nbConfs
    ensures p.nts == nts && |p.steps| == nbConfs && |dots| == |nts| && forall g: Grammar :: Building(g, p, dots)
    ensures forall g: Grammar :: Naming(g, p, dots, NoneFrom(|dots|), 0, 1)
  {
    var n := |nts|;
    var starters: seq<seq<int>> := seq(n, _ => []);
    var enders: seq<seq<int>> := seq(n, _ => []);
    var predictors: seq<seq<int>> := seq(n, _ => []);
    var steps := seq(nbConfs, _ => 0);
    var names := seq(nbConfs, _ => NoName);
    var i := n - 1;
    while i >= 0
      invariant -1 <= i < n && |enders| == n && |steps| == |names| == nbConfs
      invariant forall c :: i < c < n ==> steps[c] == c - n && names[c] == Name(nts[c], 0) && enders[c] == [c]
      invariant forall c :: n <= c < nbConfs ==> names[c] == NoName
    {
      steps := steps[i := i - n];
      names := names[i := Name(nts[i], 0)];
      enders := enders[i := [i]];
      i := i - 1;
    }
    p := Tables(nts, starters, enders, predictors, steps, names);
    dots := seq(n, _ => Tok);
    StartBuilding(p, dots);
    StartNaming(p, dots);
  }

  lemma StartBuilding(p: Tables, dots: seq<Dot>)
    requires Sized(p) && p.nts != [] && NoTwice(p.nts) && |dots| == |p.nts| <= |p.steps|
    requires forall c :: 0 <= c < |dots| ==> dots[c].Tok? && p.steps[c] == c - |p.nts| && p.names[c] == Name(p.nts[c], 0) && p.enders[c] == [c]
    requires forall x :: 0 <= x < |p.nts| ==> p.starters[x] == [] && p.predictors[x] == []
    requires forall c :: |dots| <= c < |p.names| ==> p.names[c] == NoName
    ensures forall g: Grammar :: Building(g, p, dots)
  {
    forall g: Grammar
      ensures Building(g, p, dots)
    {
      forall c | 0 <= c < |dots|
        ensures DotOk(g, p, dots, c)
      {
      }
      forall x | 0 <= x < |p.nts|
        ensures ListsOk(p, dots, x)
      {
      }
    }
  }

  lemma StartNaming(p: Tables, dots: seq<Dot>)
    requires Sized(p) && NoTwice(p.nts) && |p.nts| == |dots| <= |p.steps|
    requires forall c :: 0 <= c < |p.nts| ==> p.names[c] == Name(p.nts[c], 0) && p.enders[c] == [c]
    requires forall c :: 0 <= c < |dots| ==> dots[c].Tok?
    ensures forall g: Grammar :: Naming(g, p, dots, NoneFrom(|dots|), 0, 1)
  {
    assert EndersOnce(p, |dots|);
    forall g: Grammar
      ensures Naming(g, p, dots, NoneFrom(|dots|), 0, 1)
    {}
  }

  /** `make-parser`'s tables. */
  method MakeTables(g: Grammar) returns (p: Tables, ghost dots: seq<Dot>)
    requires g != []
    ensures Compiled(g, p, dots) && |p.nts| > 0 && p.nts[0] == g[0].head
    ensures EndersOnce(p, |dots|) && Alike(g, p, dots) && forall n :: n in p.nts <==> Mentions(g, n)
  {
    hide *;
    var nts := Nonterminals(g);
    p, dots := StartTables(nts, |nts| + DefConfs(g));
    p, dots := AddDefs(g, p, dots, NoneFrom(|dots|));
    SoFarNow(g, p, dots);
    CompiledInRange(g, p, dots);
  }

  /** The parser from end to end: compile the grammar, parse the tokens, ask whether the head of the
      first definition spans them all.  The answer is yes exactly when it derives them. */
  method Recognize(g: Grammar, toks: seq<Token>) returns (parsed: bool)
    requires g != []
    ensures parsed <==> Derivable(g, toks, g[0].head, 0, |toks|)
  {
    hide *;
    var p;
    ghost var dots;
    p, dots := MakeTables(g);
    parsed := ParsesGoal(p, toks, g, dots);
  }
}
