/** The parser's answers: the trees, their number, and which nonterminals span which tokens. */
module EarleyAnswers {
  import opened EarleyGrammar
  import opened EarleyStates
  import opened EarleyParser
  import opened EarleyTables
  import opened EarleyTrees
  import opened EarleyParses
  import opened EarleyEnumeration
  import opened EarleyRepeats
  import opened EarleyUses
  import opened Options
  import EarleyFilter

  // ---- from the parse to the trees

  /** The second chart as the enumeration reads it. */
  ghost predicate Snapshot(src: Source, p: Tables, star: seq<State>)
    reads star
  {
    src.p == p && |src.states| == |star| && forall j :: 0 <= j < |star| ==> src.states[j] == star[j].sets
  }

  /** The second chart holds true items only. */
  lemma SnapshotTrue(x: Context, chart: Chart, star: seq<State>, m: Chart, src: Source)
    requires EarleyFilter.Filtered(x.p, chart, m) && EarleyFilter.Holds(|x.p.steps|, star, m)
    requires forall j :: 0 <= j < |chart| ==> Sound(x, chart[j], j)
    requires Snapshot(src, x.p, star) && src.toks == x.toks
    ensures ChartTrue(x.g, src, x.dots)
  {
    forall c, i, j | 0 <= j < |src.states| && Holds(src, c, i, j)
      ensures ItemTrue(x.g, x.toks, x.p, x.dots, c, i, j)
    {
      star[j].ContainsItem(c, i, |x.p.steps|, j + 1);
      assert (c, i) in m[j] && (c, i) in chart[j];
      assert Sound(x, chart[j], j);
    }
  }

  /** A finished set lists its positions, each once. */
  lemma PositionsShown(src: Source, p: Tables, star: seq<State>, m: Chart, c: int, j: nat)
    requires Snapshot(src, p, star) && EarleyFilter.Holds(|p.steps|, star, m) && j < |star|
    ensures Distinct(Positions(src, c, j))
    ensures forall k :: Holds(src, c, k, j) <==> (c, k) in m[j]
    ensures forall k :: Holds(src, c, k, j) ==> k in Positions(src, c, j)
  {
    star[j].SetAt(c, |p.steps|, j + 1);
    if c in star[j].sets {
      var cs, v := star[j].sets[c], star[j].view[c];
      SettledFit(cs, v, j + 1);
      ChainSettled(cs, v, j + 1, 0, |cs|);
      PositionIs(v.settled, 0);
      assert Positions(src, c, j) == v.settled;
    }
    forall k
      ensures Holds(src, c, k, j) <==> (c, k) in m[j]
      ensures Holds(src, c, k, j) ==> k in Positions(src, c, j)
    {
      assert (c, k).0 == c && (c, k).1 == k;
      if k >= 0 {
        star[j].ContainsItem(c, k, |p.steps|, j + 1);
      } else if (c, k) in star[j].items {
        star[j].ItemInRange(c, k, |p.steps|, j + 1);
      }
    }
  }

  /** A set has room for its settled positions. */
  lemma SettledFit(cs: ConfSet, v: View, size: nat)
    requires IsConfSet(cs, v, size)
    ensures |v.settled| <= |cs|
  {
    CellsCount(v.settled);
    var used := Cells(v.settled);
    forall c | c in used
      ensures c in cs
    {
      var t :| 0 <= t < |v.settled| && v.settled[t] == c - 5;
      assert v.settled[t] + 5 in cs;
    }
    assert used + (cs.Keys - used) == cs.Keys;
  }

  ghost function Cells(s: seq<int>): set<int> {
    if s == [] then {} else Cells(s[..|s| - 1]) + {s[|s| - 1] + 5}
  }

  lemma {:induction false} CellsCount(s: seq<int>)
    requires Distinct(s)
    ensures |Cells(s)| == |s| && forall c :: c in Cells(s) <==> c - 5 in s
    decreases |s|
  {
    if s != [] {
      CellsCount(s[..|s| - 1]);
      assert s == s[..|s| - 1] + [s[|s| - 1]];
    }
  }

  lemma SnapshotShows(src: Source, p: Tables, star: seq<State>, m: Chart)
    requires Snapshot(src, p, star) && EarleyFilter.Holds(|p.steps|, star, m)
    ensures Shows(src, m)
  {
    forall c, j | 0 <= j < |m|
      ensures Distinct(Positions(src, c, j))
      ensures forall k :: Holds(src, c, k, j) <==> (c, k) in m[j]
      ensures forall k :: Holds(src, c, k, j) ==> k in Positions(src, c, j)
    {
      PositionsShown(src, p, star, m, c, j);
    }
    hide EarleyFilter.Holds;
    hide Holds;
    hide Positions;
  }

  lemma EndersOnceApart(p: Tables, n: int)
    requires EndersOnce(p, n)
    ensures EndersApart(p)
  {}

  lemma ReadyIntro(z: Charts)
    requires Compiled(z.g, z.x.p, z.dots) && Alike(z.g, z.x.p, z.dots) && EndersApart(z.x.p)
    requires ChartClosed(z.x.p, z.x.toks, z.chart) && EarleyFilter.Filtered(z.x.p, z.chart, z.m)
    requires Shows(z.x, z.m) && ChartTrue(z.g, z.x, z.dots)
    ensures Ready(z)
  {}

  /** The second chart holds used items only. */
  ghost predicate Least(z: Charts) {
    |z.m| == |z.chart| && forall k :: 0 <= k < |z.m| ==> z.m[k] <= UsedChart(ContextOf(z), z.chart)[k]
  }

  lemma LeastIntro(z: Charts, x: Context)
    requires |z.m| == |z.chart| && x == Context(z.g, z.x.toks, z.x.p, z.dots)
    requires forall k :: 0 <= k < |z.m| ==> z.m[k] <= UsedChart(x, z.chart)[k]
    ensures Least(z)
  {}

  /** Parsing up to the two charts. */
  method Charted(g: Grammar, toks: seq<Token>) returns (src: Source, star: seq<State>, ghost z: Charts)
    requires g != []
    ensures Ready(z) && z.g == g && z.x == src && src.toks == toks && |src.p.nts| > 0 && src.p.nts[0] == g[0].head
    ensures Least(z) && EarleyFilter.Holds(|src.p.steps|, star, z.m) && forall n :: n in src.p.nts <==> Mentions(g, n)
  {
    hide *;
    var p;
    ghost var dots;
    p, dots := MakeTables(g);
    ghost var x := Context(g, toks, p, dots);
    var states;
    ghost var chart;
    states, chart := FillChart(p, toks, g, dots);
    ContextIntro(x);
    ghost var m;
    EarleyFilter.FinishedSound(x, states, chart);
    EarleyFilter.FinishedSize(x, states, chart);
    UsedFiltered(x, chart);
    star, m := EarleyFilter.Filter(states, p, x, chart, UsedChart(x, chart));
    src := Source(p, toks, seq(|star|, j requires 0 <= j < |star| reads star => star[j].sets));
    SnapshotIntro(src, p, star);
    SnapshotTrue(x, chart, star, m, src);
    SnapshotShows(src, p, star, m);
    EndersOnceApart(p, |dots|);
    z := Charts(g, src, dots, chart, m);
    ReadyIntro(z);
    UsedSize(x, chart);
    LeastIntro(z, x);
  }

  lemma UsedSize(x: Context, chart: Chart)
    ensures |UsedChart(x, chart)| == |chart|
  {}

  lemma SnapshotIntro(src: Source, p: Tables, star: seq<State>)
    requires src.p == p && |src.states| == |star| && forall j :: 0 <= j < |star| ==> src.states[j] == star[j].sets
    ensures Snapshot(src, p, star)
  {}

  // ---- what is asked about

  /** A tree of the whole input. */
  ghost predicate Parses(g: Grammar, toks: seq<Token>, t: Tree)
    requires g != []
  {
    IsParse(g, toks, t, g[0].head, 0, |toks|)
  }

  /** Some parse of the whole input has a parse of `nt` over tokens `i..j` in it. */
  ghost predicate InParse(g: Grammar, toks: seq<Token>, nt: Symbol, i: int, j: int)
    requires g != []
  {
    exists t, u :: Parses(g, toks, t) && Occurs(t, 0, u, i) && IsParse(g, toks, u, nt, i, j)
  }

  lemma InParseIs(z: Charts, nt: Symbol, i: int, j: int)
    requires Ready(z) && z.g != [] && |z.x.p.nts| > 0 && z.x.p.nts[0] == z.g[0].head
    ensures SpanUsed(ContextOf(z), nt, i, j) <==> InParse(z.g, z.x.toks, nt, i, j)
  {
    ReadyContext(z);
    var x := ContextOf(z);
    hide Ready;
    hide Occurs;
    hide IsParse;
    if SpanUsed(x, nt, i, j) {
      var t, u :| WholeParse(x, t) && Occurs(t, 0, u, i) && IsParse(x.g, x.toks, u, nt, i, j);
      assert Parses(z.g, z.x.toks, t);
    }
    if InParse(z.g, z.x.toks, nt, i, j) {
      var t, u :| Parses(z.g, z.x.toks, t) && Occurs(t, 0, u, i) && IsParse(z.g, z.x.toks, u, nt, i, j);
      assert WholeParse(x, t);
    }
  }

  lemma LeastParts(z: Charts)
    requires Least(z)
    ensures |z.m| == |z.chart| && forall k :: 0 <= k < |z.m| ==> z.m[k] <= UsedChart(ContextOf(z), z.chart)[k]
  {}

  lemma ReadySizes(z: Charts)
    requires Ready(z)
    ensures InRange(z.x.p) && |z.x.p.enders| == |z.x.p.nts| && |z.m| == |z.x.toks| + 1
    ensures forall x, y :: 0 <= x < y < |z.x.p.nts| ==> z.x.p.nts[x] != z.x.p.nts[y]
  {}

  /** Every nonterminal can be a token. */
  lemma EveryNameEnds(z: Charts, nt: Symbol)
    requires Ready(z) && |z.x.p.enders| == |z.x.p.nts|
    ensures EarleyFilter.HasEnder(z.x.p, nt) <==> nt in z.x.p.nts
  {
    if nt in z.x.p.nts {
      var y :| 0 <= y < |z.x.p.nts| && z.x.p.nts[y] == nt;
      assert DotOk(z.g, z.x.p, z.dots, y);
      assert ListsOk(z.x.p, z.dots, y);
      assert y in z.x.p.enders[y];
    }
  }

  // ---- nonterminals and spans

  /** `parse->parsed?`: for a span inside the input, does some parse of the whole input use it?  A span that ends before
      it begins is answered as if it might begin anywhere; one that ends after the input is an error. */
  method ParseParsed(g: Grammar, toks: seq<Token>, nt: Symbol, i: nat, j: nat) returns (parsed: Option<bool>)
    requires g != []
    ensures parsed.None? <==> j > |toks| && Mentions(g, nt)
    ensures i <= j <= |toks| ==> (parsed.value <==> InParse(g, toks, nt, i, j))
    ensures j < i && j <= |toks| ==> (parsed.value <==> exists k :: 0 <= k <= j && InParse(g, toks, nt, k, j))
    ensures j > |toks| && !Mentions(g, nt) ==> !parsed.value
  {
    hide *;
    var src, star;
    ghost var z;
    src, star, z := Charted(g, toks);
    ReadySizes(z);
    parsed := EarleyFilter.IsParsed(nt, i, j, src.p, star, z.m);
    EveryNameEnds(z, nt);
    if j <= |toks| {
      forall k
        ensures EarleyFilter.Spans(src.p, z.m, nt, k, j) <==> InParse(g, toks, nt, k, j)
      {
        LeastParts(z);
        SpansExactly(z, nt, k, j);
        InParseIs(z, nt, k, j);
      }
    }
  }

  // ---- trees and their number

  /** `t` is a parse of `nt` over the span, and some parse of the whole input has one there. */
  ghost predicate ParseIn(g: Grammar, toks: seq<Token>, nt: Symbol, i: int, j: int, t: Tree)
    requires g != []
  {
    InParse(g, toks, nt, i, j) && IsParse(g, toks, t, nt, i, j)
  }

  /** For the goal over the whole input that is any parse. */
  lemma WholeIn(g: Grammar, toks: seq<Token>, t: Tree)
    requires g != []
    ensures ParseIn(g, toks, g[0].head, 0, |toks|, t) <==> Parses(g, toks, t)
  {
    if Parses(g, toks, t) {
      assert Occurs(t, 0, t, 0);
    }
    hide IsParse;
  }

  /** None of them uses, at any depth, an alternative that the grammar gives twice under one number. */
  ghost predicate NoneRepeats(g: Grammar, toks: seq<Token>, nt: Symbol, i: int, j: int)
    requires g != []
  {
    forall t :: ParseIn(g, toks, nt, i, j, t) ==> !Repeats(g, t)
  }

  ghost predicate AllSmaller(g: Grammar, toks: seq<Token>, nt: Symbol, i: int, j: int, n: nat)
    requires g != []
  {
    n > 0 && forall t :: ParseIn(g, toks, nt, i, j, t) ==> Size(t) < n
  }

  /** A query about the parse. */
  ghost predicate Question(z: Charts, w: Query) {
    && Ready(z) && Least(z) && z.g != [] && |z.x.p.nts| > 0 && z.x.p.nts[0] == z.g[0].head
    && InRange(z.x.p) && w.nt < |z.x.p.nts| == |z.x.p.enders| && w.i <= w.j < |z.x.states|
    && Within(z.x.p.enders[w.nt], |z.x.p.steps|)
  }

  lemma QuestionIntro(z: Charts, w: Query)
    requires Ready(z) && Least(z) && z.g != [] && |z.x.p.nts| > 0 && z.x.p.nts[0] == z.g[0].head
    requires w.nt < |z.x.p.nts| && w.i <= w.j <= |z.x.toks|
    ensures Question(z, w)
  {
    assert ListsOk(z.x.p, z.dots, w.nt);
    var l := z.x.p.enders[w.nt];
    forall s | 0 <= s < |l|
      ensures 0 <= l[s] < |z.x.p.steps|
    {
      assert l[s] in l;
    }
  }

  lemma QuestionParts(z: Charts, w: Query)
    requires Question(z, w)
    ensures Ready(z) && Least(z) && z.g != [] && |z.x.p.nts| > 0 && z.x.p.nts[0] == z.g[0].head
    ensures InRange(z.x.p) && w.nt < |z.x.p.nts| == |z.x.p.enders| && w.i <= w.j < |z.x.states|
    ensures Within(z.x.p.enders[w.nt], |z.x.p.steps|)
  {}

  /** A question about what some parse uses ... */
  lemma UsedQuestion(z: Charts, w: Query)
    requires Question(z, w) && w.nt < |z.x.p.nts| && InParse(z.g, z.x.toks, z.x.p.nts[w.nt], w.i, w.j)
    ensures Asked(z, w)
    ensures forall t :: SpanParse(z, w, t) <==> ParseIn(z.g, z.x.toks, z.x.p.nts[w.nt], w.i, w.j, t)
  {
    hide *;
    QuestionParts(z, w);
    InParseIs(z, z.x.p.nts[w.nt], w.i, w.j);
    UsedAsked(z, w);
    SpanParseIs(z, w);
  }

  lemma SpanParseIs(z: Charts, w: Query)
    requires z.g != [] && w.nt < |z.x.p.nts| && InParse(z.g, z.x.toks, z.x.p.nts[w.nt], w.i, w.j)
    ensures forall t :: SpanParse(z, w, t) <==> ParseIn(z.g, z.x.toks, z.x.p.nts[w.nt], w.i, w.j, t)
  {
    hide InParse;
    hide IsParse;
  }

  /** ... and about what none uses: nothing is listed. */
  lemma UnusedQuestion(z: Charts, w: Query, fuel: nat)
    requires Question(z, w) && !InParse(z.g, z.x.toks, z.x.p.nts[w.nt], w.i, w.j)
    ensures forall t :: !ParseIn(z.g, z.x.toks, z.x.p.nts[w.nt], w.i, w.j, t)
    ensures TreesOf(z.x, z.x.p.enders[w.nt], w.i, w.j, [], fuel) == Some([])
    ensures CountOf(z.x, z.x.p.enders[w.nt], w.i, w.j, 0, fuel) == Some(0)
  {
    hide *;
    QuestionParts(z, w);
    LeastParts(z);
    ReadyRange(z);
    InParseIs(z, z.x.p.nts[w.nt], w.i, w.j);
    SpansExactly(z, z.x.p.nts[w.nt], w.i, w.j);
    NoneHeld(z, w);
    NothingListed(z.x, z.x.p.enders[w.nt], w.i, w.j, fuel);
    forall t
      ensures !ParseIn(z.g, z.x.toks, z.x.p.nts[w.nt], w.i, w.j, t)
    {
      ParseInParts(z.g, z.x.toks, z.x.p.nts[w.nt], w.i, w.j, t);
    }
  }

  lemma ParseInParts(g: Grammar, toks: seq<Token>, nt: Symbol, i: int, j: int, t: Tree)
    requires g != []
    ensures ParseIn(g, toks, nt, i, j, t) ==> InParse(g, toks, nt, i, j)
  {
    hide InParse;
    hide IsParse;
  }

  lemma NoneHeld(z: Charts, w: Query)
    requires Ready(z) && w.nt < |z.x.p.nts| == |z.x.p.enders| && w.j < |z.m| == |z.x.states|
    requires !EarleyFilter.Spans(z.x.p, z.m, z.x.p.nts[w.nt], w.i, w.j)
    ensures forall s :: 0 <= s < |z.x.p.enders[w.nt]| ==> !EarleyTrees.Holds(z.x, z.x.p.enders[w.nt][s], w.i, w.j)
  {
    var l := z.x.p.enders[w.nt];
    forall s | 0 <= s < |l|
      ensures !EarleyTrees.Holds(z.x, l[s], w.i, w.j)
    {
      assert l[s] in l;
    }
  }

  lemma {:induction false} NothingListed(x: Source, l: seq<int>, i: nat, j: nat, fuel: nat)
    requires InRange(x.p) && j < |x.states| && Within(l, |x.p.steps|)
    requires forall s :: 0 <= s < |l| ==> !EarleyTrees.Holds(x, l[s], i, j)
    ensures TreesOf(x, l, i, j, [], fuel) == Some([]) && CountOf(x, l, i, j, 0, fuel) == Some(0)
    decreases |l|
  {
    hide EarleyTrees.Holds;
    hide InRange;
    if l != [] {
      var rest := l[1..];
      assert forall s :: 0 <= s < |rest| ==> rest[s] == l[s + 1];
      NothingListed(x, rest, i, j, fuel);
    }
  }

  lemma NoneRepeatsIs(z: Charts, w: Query)
    requires z.g != [] && w.nt < |z.x.p.nts|
    requires forall t :: SpanParse(z, w, t) <==> ParseIn(z.g, z.x.toks, z.x.p.nts[w.nt], w.i, w.j, t)
    ensures NoneRepeats(z.g, z.x.toks, z.x.p.nts[w.nt], w.i, w.j) <==> forall t :: SpanParse(z, w, t) ==> !Repeats(z.g, t)
    ensures forall n: nat :: AllSmaller(z.g, z.x.toks, z.x.p.nts[w.nt], w.i, w.j, n) ==> n > 0 && Bounded(z, w, n - 1)
  {
    hide SpanParse;
    hide ParseIn;
    hide Repeats;
    hide Size;
  }

  lemma NoneToRepeat(g: Grammar, toks: seq<Token>, nt: Symbol, i: int, j: int)
    requires g != [] && forall t :: !ParseIn(g, toks, nt, i, j, t)
    ensures NoneRepeats(g, toks, nt, i, j) && NoTwin([])
  {
    hide ParseIn;
    hide Repeats;
  }

  /** What is listed for a question. */
  lemma TreesAnswer(z: Charts, w: Query, nt: Symbol, fuel: nat)
    requires Question(z, w) && nt == z.x.p.nts[w.nt]
    ensures var r := TreesOf(z.x, z.x.p.enders[w.nt], w.i, w.j, [], fuel);
      && (r.Some? ==> forall t :: t in r.value <==> ParseIn(z.g, z.x.toks, nt, w.i, w.j, t))
      && (r.Some? ==> (NoTwin(r.value) <==> NoneRepeats(z.g, z.x.toks, nt, w.i, w.j)))
      && (AllSmaller(z.g, z.x.toks, nt, w.i, w.j, fuel) ==> r.Some?)
  {
    hide *;
    QuestionParts(z, w);
    if InParse(z.g, z.x.toks, nt, w.i, w.j) {
      UsedQuestion(z, w);
      NoneRepeatsIs(z, w);
      SpanUnfold(z, w, fuel);
      if SpanTrees(z, w, fuel).Some? {
        ListsParses(z, w, fuel);
        OnceExactly(z, w, fuel);
      }
      if AllSmaller(z.g, z.x.toks, nt, w.i, w.j, fuel) {
        EndsWhenBounded(z, w, fuel - 1, fuel);
      }
    } else {
      UnusedQuestion(z, w, fuel);
      NoneToRepeat(z.g, z.x.toks, nt, w.i, w.j);
    }
  }

  /** `parse->trees`, for a span inside the input: no answer for a name that the grammar does not use; else, for a
      nonterminal and a span that some parse of the whole input uses, exactly the parses of it, each once if and only if
      none of them repeats an alternative; and nothing for others.  It is found when no such parse is as large as the
      depth. */
  method ParseTrees(g: Grammar, toks: seq<Token>, nt: Symbol, i: nat, j: nat, fuel: nat)
    returns (known: bool, trees: Option<seq<Tree>>)
    requires g != [] && i <= j <= |toks|
    ensures known <==> Mentions(g, nt)
    ensures known && trees.Some? ==> forall t :: t in trees.value <==> ParseIn(g, toks, nt, i, j, t)
    ensures known && trees.Some? ==> (NoTwin(trees.value) <==> NoneRepeats(g, toks, nt, i, j))
    ensures known && AllSmaller(g, toks, nt, i, j, fuel) ==> trees.Some?
  {
    hide *;
    var src, star;
    ghost var z;
    src, star, z := Charted(g, toks);
    var at := Ind(nt, src.p.nts);
    known, trees := at >= 0, None;
    if known {
      ghost var w := Query(at, i, j);
      QuestionIntro(z, w);
      QuestionParts(z, w);
      trees := TreesOf(src, src.p.enders[at], i, j, [], fuel);
      TreesAnswer(z, w, nt, fuel);
    }
  }

  /** What is counted for a question. */
  lemma CountAnswer(z: Charts, w: Query, nt: Symbol, fuel: nat) returns (all: set<Tree>)
    requires Question(z, w) && nt == z.x.p.nts[w.nt]
    ensures var r := CountOf(z.x, z.x.p.enders[w.nt], w.i, w.j, 0, fuel);
      && (r.Some? ==> |all| <= r.value && forall t :: t in all <==> ParseIn(z.g, z.x.toks, nt, w.i, w.j, t))
      && (r.Some? ==> (|all| == r.value <==> NoneRepeats(z.g, z.x.toks, nt, w.i, w.j)))
      && (AllSmaller(z.g, z.x.toks, nt, w.i, w.j, fuel) ==> r.Some?)
  {
    hide *;
    QuestionParts(z, w);
    all := {};
    if InParse(z.g, z.x.toks, nt, w.i, w.j) {
      UsedQuestion(z, w);
      NoneRepeatsIs(z, w);
      if CountOf(z.x, z.x.p.enders[w.nt], w.i, w.j, 0, fuel).Some? {
        all := CountsParses(z, w, fuel);
        AllParsesParts(z, w, all);
      }
      if AllSmaller(z.g, z.x.toks, nt, w.i, w.j, fuel) {
        EndsWhenBounded(z, w, fuel - 1, fuel);
        CountEnds(z, w, fuel);
      }
    } else {
      UnusedQuestion(z, w, fuel);
      NoneToRepeat(z.g, z.x.toks, nt, w.i, w.j);
    }
  }

  /** `parse->nb-trees`, in the same way: at least the number of those parses, and that number if and only if none of
      them repeats an alternative. */
  method ParseNbTrees(g: Grammar, toks: seq<Token>, nt: Symbol, i: nat, j: nat, fuel: nat)
    returns (known: bool, nb: Option<nat>, ghost all: set<Tree>)
    requires g != [] && i <= j <= |toks|
    ensures known <==> Mentions(g, nt)
    ensures known && nb.Some? ==> |all| <= nb.value && forall t :: t in all <==> ParseIn(g, toks, nt, i, j, t)
    ensures known && nb.Some? ==> (|all| == nb.value <==> NoneRepeats(g, toks, nt, i, j))
    ensures known && AllSmaller(g, toks, nt, i, j, fuel) ==> nb.Some?
  {
    hide *;
    var src, star;
    ghost var z;
    src, star, z := Charted(g, toks);
    var at := Ind(nt, src.p.nts);
    known, nb, all := at >= 0, None, {};
    if known {
      ghost var w := Query(at, i, j);
      QuestionIntro(z, w);
      QuestionParts(z, w);
      nb := CountOf(src, src.p.enders[at], i, j, 0, fuel);
      all := CountAnswer(z, w, nt, fuel);
    }
  }

  lemma AllParsesParts(z: Charts, w: Query, all: set<Tree>)
    requires w.nt < |z.x.p.nts| && AllParsesAre(z, w, all)
    ensures forall t :: t in all <==> SpanParse(z, w, t)
  {
    hide SpanParse;
  }

  /** Counting ends where enumerating does. */
  lemma CountEnds(z: Charts, w: Query, fuel: nat)
    requires Asked(z, w) && SpanTrees(z, w, fuel).Some?
    ensures w.nt < |z.x.p.enders| && InRange(z.x.p) && w.j < |z.x.states|
    ensures Within(z.x.p.enders[w.nt], |z.x.p.steps|)
    ensures CountOf(z.x, z.x.p.enders[w.nt], w.i, w.j, 0, fuel).Some?
  {
    hide *;
    AskedParts(z, w);
    ReadyRange(z);
    CompiledNamesAgree(z.g, z.x.p, z.dots);
    SpanUnfold(z, w, fuel);
    CountOfAgrees(z.x, z.x.p.enders[w.nt], w.i, w.j, [], fuel);
    SameCountIs(SpanTrees(z, w, fuel), CountOf(z.x, z.x.p.enders[w.nt], w.i, w.j, 0, fuel));
  }

  // ---- what shows that the conditions are needed

  /** A span that ends before it begins is in no parse: about one the answer is right only where no parse has the
      nonterminal end there. */
  lemma SpanForward(g: Grammar, toks: seq<Token>, nt: Symbol, i: int, j: int)
    requires g != [] && InParse(g, toks, nt, i, j)
    ensures 0 <= i <= j <= |toks|
  {
    var t, u :| Parses(g, toks, t) && Occurs(t, 0, u, i) && IsParse(g, toks, u, nt, i, j);
    ParseDerives(g, toks, u, nt, i, j);
  }

  /** And here it is wrong: with one token `a` and one rule `s -> a`, a parse has an a that ends at 1, so 2..1 is answered
      yes. */
  lemma BackwardSpan()
    ensures var g, toks := [Def("s", [["a"]])], [Token("a", ["a"])];
      InParse(g, toks, "a", 0, 1) && !InParse(g, toks, "a", 2, 1)
  {
    hide Occurs;
    var g: Grammar, toks := [Def("s", [["a"]])], [Token("a", ["a"])];
    OneTokenParse(g, toks);
    if InParse(g, toks, "a", 2, 1) {
      SpanForward(g, toks, "a", 2, 1);
      assert false;
    }
  }

  lemma OneTokenParse(g: Grammar, toks: seq<Token>)
    requires g == [Def("s", [["a"]])] && toks == [Token("a", ["a"])]
    ensures InParse(g, toks, "a", 0, 1)
  {
    var u := Node(Name("a", 0), [Leaf("a")]);
    var t := Node(Name("s", 1), [u]);
    assert IsParse(g, toks, u, "a", 0, 1);
    OneKidParse(g, toks, u, "a", 0, 1);
    assert g[0] in g && g[0].rules[0] == ["a"];
    assert IsAlternative(g, t.name, ["a"]);
    assert Occurs(u, 0, u, 0);
    assert t.kids[0] == u && t.kids[..0] == [] && KidStart(t, 0, 0) == 0;
    assert Occurs(t, 0, u, 0);
    assert Parses(g, toks, t);
  }

  lemma OneKidParse(g: Grammar, toks: seq<Token>, u: Tree, s: Symbol, i: int, j: int)
    requires IsParse(g, toks, u, s, i, j) && 0 <= i <= |toks|
    ensures AreParses(g, toks, [u], [s], i, j)
  {
    var kids, rhs := [u], [s];
    assert kids[..0] == [] && rhs[..0] == [];
    assert AreParses(g, toks, kids[..0], rhs[..0], i, i);
  }

  // ---- alternatives given twice, used and not used

  lemma OneKidTells(g: Grammar, toks: seq<Token>, kids: seq<Tree>, s: Symbol, i: int, j: int)
    requires AreParses(g, toks, kids, [s], i, j)
    ensures |kids| == 1 && IsParse(g, toks, kids[0], s, i, j)
  {
    var rhs := [s];
    var k :| AreParses(g, toks, kids[..0], rhs[..0], i, k) && IsParse(g, toks, kids[0], rhs[0], k, j);
  }

  /** A tree of a symbol without alternatives is a token. */
  lemma TokenTells(g: Grammar, toks: seq<Token>, t: Tree, s: Symbol, i: int, j: int)
    requires IsParse(g, toks, t, s, i, j) && forall d :: d in g ==> d.head != s
    ensures 0 <= i < |toks| && t == Node(Name(s, 0), [Leaf(toks[i].value)])
  {}

  /** A tree of a symbol whose alternatives are all the first of their definition, and `s`. */
  lemma RuleTells(g: Grammar, toks: seq<Token>, t: Tree, head: Symbol, s: Symbol, i: int, j: int)
    requires IsParse(g, toks, t, head, i, j) && forall d :: d in g && d.head == head ==> d.rules == [[s]]
    requires forall k :: k in toks ==> head !in k.kinds
    ensures t.Node? && t.name == Name(head, 1) && |t.kids| == 1 && IsParse(g, toks, t.kids[0], s, i, j)
  {
    var rhs :| IsAlternative(g, t.name, rhs) && AreParses(g, toks, t.kids, rhs, i, j);
    assert rhs == [s];
    OneKidTells(g, toks, t.kids, s, i, j);
  }

  lemma RuleParse(g: Grammar, toks: seq<Token>, u: Tree, head: Symbol, s: Symbol, d: int, i: int, j: int)
    requires IsParse(g, toks, u, s, i, j) && 0 <= i <= |toks| && 0 <= d < |g| && g[d] == Def(head, [[s]])
    ensures IsParse(g, toks, Node(Name(head, 1), [u]), head, i, j)
  {
    OneKidParse(g, toks, u, s, i, j);
    assert g[d].rules[0] == [s];
    assert IsAlternative(g, Name(head, 1), [s]);
  }

  lemma OneKidSize(name: Name, u: Tree)
    ensures Size(Node(name, [u])) == 1 + Size(u)
  {
    var kids := [u];
    assert kids[..0] == [] && SizeAll(kids) == SizeAll(kids[..0]) + Size(kids[0]);
  }

  lemma OneKidRepeats(g: Grammar, name: Name, u: Tree, s: Symbol)
    requires SymbolOf(u) == s
    ensures Repeats(g, Node(name, [u])) <==> GivenTwice(g, name, [s]) || Repeats(g, u)
  {
    var t := Node(name, [u]);
    assert Symbols(t.kids) == [s];
    assert t.kids[0] == u;
  }

  /** `x -> a` is given twice and used, below the root: the one parse of the input, which depth 5 finds, is listed more
      than once. */
  lemma InnerTwice(tree: Tree)
    requires tree == Node(Name("s", 1), [Node(Name("x", 1), [Node(Name("a", 0), [Leaf("a")])])])
    ensures var g, toks := [Def("s", [["x"]]), Def("x", [["a"]]), Def("x", [["a"]])], [Token("a", ["a"])];
      && (forall t :: ParseIn(g, toks, "s", 0, 1, t) <==> t == tree)
      && !NoneRepeats(g, toks, "s", 0, 1) && AllSmaller(g, toks, "s", 0, 1, 5)
  {
    var g: Grammar, toks := [Def("s", [["x"]]), Def("x", [["a"]]), Def("x", [["a"]])], [Token("a", ["a"])];
    var leaf := Node(Name("a", 0), [Leaf("a")]);
    var inner := Node(Name("x", 1), [leaf]);
    forall t
      ensures Parses(g, toks, t) <==> t == tree
    {
      InnerParse(g, toks, t, leaf, inner, tree);
    }
    InnerRepeats(g, leaf, inner, tree);
    InnerSize(leaf, inner, tree);
    hide *;
    WholeOnly(g, toks, tree);
  }

  lemma WholeOnly(g: Grammar, toks: seq<Token>, tree: Tree)
    requires g != [] && (forall t :: Parses(g, toks, t) <==> t == tree)
    ensures Mentions(g, g[0].head)
    ensures forall t :: ParseIn(g, toks, g[0].head, 0, |toks|, t) <==> t == tree
    ensures NoneRepeats(g, toks, g[0].head, 0, |toks|) <==> !Repeats(g, tree)
    ensures AllSmaller(g, toks, g[0].head, 0, |toks|, Size(tree) + 1)
  {
    forall t
      ensures ParseIn(g, toks, g[0].head, 0, |toks|, t) <==> t == tree
    {
      WholeIn(g, toks, t);
    }
    hide ParseIn;
    hide Parses;
    hide Repeats;
    hide Size;
    assert g[0] in g;
  }

  lemma InnerParse(g: Grammar, toks: seq<Token>, t: Tree, leaf: Tree, inner: Tree, tree: Tree)
    requires g == [Def("s", [["x"]]), Def("x", [["a"]]), Def("x", [["a"]])] && toks == [Token("a", ["a"])]
    requires leaf == Node(Name("a", 0), [Leaf("a")]) && inner == Node(Name("x", 1), [leaf]) && tree == Node(Name("s", 1), [inner])
    ensures Parses(g, toks, t) <==> t == tree
  {
    assert IsParse(g, toks, leaf, "a", 0, 1);
    hide IsParse;
    RuleParse(g, toks, leaf, "x", "a", 1, 0, 1);
    RuleParse(g, toks, inner, "s", "x", 0, 0, 1);
    if Parses(g, toks, t) {
      RuleTells(g, toks, t, "s", "x", 0, 1);
      RuleTells(g, toks, t.kids[0], "x", "a", 0, 1);
      TokenTells(g, toks, t.kids[0].kids[0], "a", 0, 1);
      assert t.kids[0].kids == [leaf] && t.kids == [inner];
    }
  }

  lemma InnerRepeats(g: Grammar, leaf: Tree, inner: Tree, tree: Tree)
    requires g == [Def("s", [["x"]]), Def("x", [["a"]]), Def("x", [["a"]])]
    requires leaf == Node(Name("a", 0), [Leaf("a")]) && inner == Node(Name("x", 1), [leaf]) && tree == Node(Name("s", 1), [inner])
    ensures Repeats(g, tree)
  {
    OneKidRepeats(g, Name("x", 1), leaf, "a");
    OneKidRepeats(g, Name("s", 1), inner, "x");
    hide Repeats;
    assert GivenBy(g, Name("x", 1), ["a"], 1) && GivenBy(g, Name("x", 1), ["a"], 2);
  }

  lemma InnerSize(leaf: Tree, inner: Tree, tree: Tree)
    requires leaf == Node(Name("a", 0), [Leaf("a")]) && inner == Node(Name("x", 1), [leaf]) && tree == Node(Name("s", 1), [inner])
    ensures Size(tree) == 4
  {
    OneKidSize(Name("s", 1), inner);
    OneKidSize(Name("x", 1), leaf);
    OneKidSize(Name("a", 0), Leaf("a"));
  }

  /** `y -> b` is given twice but no parse of the input uses it: its one parse is listed once. */
  lemma UnusedTwice(tree: Tree)
    requires tree == Node(Name("s", 1), [Node(Name("a", 0), [Leaf("a")])])
    ensures var g, toks := [Def("s", [["a"]]), Def("y", [["b"]]), Def("y", [["b"]])], [Token("a", ["a"])];
      && GivenTwice(g, Name("y", 1), ["b"]) && (forall t :: ParseIn(g, toks, "s", 0, 1, t) <==> t == tree)
      && NoneRepeats(g, toks, "s", 0, 1)
  {
    var g: Grammar, toks := [Def("s", [["a"]]), Def("y", [["b"]]), Def("y", [["b"]])], [Token("a", ["a"])];
    var leaf := Node(Name("a", 0), [Leaf("a")]);
    forall t
      ensures Parses(g, toks, t) <==> t == tree
    {
      OuterParse(g, toks, t, leaf, tree);
    }
    OuterOnce(g, leaf, tree);
    hide *;
    WholeOnly(g, toks, tree);
  }

  lemma OuterParse(g: Grammar, toks: seq<Token>, t: Tree, leaf: Tree, tree: Tree)
    requires g == [Def("s", [["a"]]), Def("y", [["b"]]), Def("y", [["b"]])] && toks == [Token("a", ["a"])]
    requires leaf == Node(Name("a", 0), [Leaf("a")]) && tree == Node(Name("s", 1), [leaf])
    ensures Parses(g, toks, t) <==> t == tree
  {
    assert IsParse(g, toks, leaf, "a", 0, 1);
    hide IsParse;
    RuleParse(g, toks, leaf, "s", "a", 0, 0, 1);
    if Parses(g, toks, t) {
      RuleTells(g, toks, t, "s", "a", 0, 1);
      TokenTells(g, toks, t.kids[0], "a", 0, 1);
      assert t.kids == [leaf];
    }
  }

  lemma OuterOnce(g: Grammar, leaf: Tree, tree: Tree)
    requires g == [Def("s", [["a"]]), Def("y", [["b"]]), Def("y", [["b"]])]
    requires leaf == Node(Name("a", 0), [Leaf("a")]) && tree == Node(Name("s", 1), [leaf])
    ensures !Repeats(g, tree) && GivenTwice(g, Name("y", 1), ["b"])
  {
    OneKidRepeats(g, Name("s", 1), leaf, "a");
    OneKidRepeats(g, Name("a", 0), Leaf("a"), "");
    assert !Repeats(g, Leaf("a"));
    hide Repeats;
    assert GivenBy(g, Name("y", 1), ["b"], 1) && GivenBy(g, Name("y", 1), ["b"], 2);
  }
}
