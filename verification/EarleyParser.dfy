/** Filling the chart: prediction, completion and scanning, state by state. */
module EarleyParser {
  import opened EarleyGrammar
  import opened EarleyStates

  ghost function Starts(l: seq<int>, i: int): set<Item> {
    set t | 0 <= t < |l| :: (l[t], i)
  }

  lemma StartIn(l: seq<int>, i: int, x: Item)
    ensures x in Starts(l, i) <==> x.0 in l && x.1 == i
  {
    if x.0 in l && x.1 == i {
      var t :| 0 <= t < |l| && l[t] == x.0;
      assert x == (l[t], i);
    }
  }

  lemma StartsStep(l: seq<int>, i: int, t: nat)
    requires t < |l|
    ensures Starts(l[..t + 1], i) == Starts(l[..t], i) + {(l[t], i)}
  {
    assert l[..t + 1] == l[..t] + [l[t]];
    forall x: Item
      ensures x in Starts(l[..t + 1], i) <==> x in Starts(l[..t], i) + {(l[t], i)}
    {
      StartIn(l[..t + 1], i, x);
      StartIn(l[..t], i, x);
    }
  }

  /** Adding position `i` to every configuration set of a list, as `conf_set_adjoin*` and the
      prediction loop of `forw` do. */
  method AdjoinAll(st: State, l: seq<int>, i: int, ghost nb: nat, ghost size: nat)
    requires st.Valid(nb, size) && 0 <= i < size && forall c :: c in l ==> 0 <= c < nb
    modifies st
    ensures st.Valid(nb, size) && SettledKept(old(st.view), st.view)
    ensures st.items == old(st.items) + Starts(l, i) && st.done == old(st.done)
  {
    hide SetsOk;
    hide IsStack;
    hide StackHoldsWaiting;
    hide ViewsItems;
    hide Starts;
    ghost var view0 := st.view;
    var rest := l;
    ghost var t: nat := 0;
    StartsNone(l[..0], i);
    while rest != []
      invariant t <= |l| && rest == l[t..]
      invariant st.Valid(nb, size) && SettledKept(view0, st.view)
      invariant st.items == old(st.items) + Starts(l[..t], i) && st.done == old(st.done)
      decreases |rest|
    {
      var conf := rest[0];
      assert conf == l[t] && conf in l;
      StartsStep(l, i, t);
      st.Get(conf, nb, size);
      st.ContainsItem(conf, i, nb, size);
      if !st.Contains(conf, i) {
        st.Adjoin(conf, i, nb, size);
      }
      rest := rest[1..];
      t := t + 1;
    }
    assert l[..t] == l;
  }

  lemma StartsNone(l: seq<int>, i: int)
    requires l == []
    ensures Starts(l, i) == {}
  {}

  /** After the states before `j`, whose items are all processed. */
  ghost predicate Processed(p: Tables, prior: Chart, done: set<Item>, items: set<Item>, j: nat)
    requires |prior| == j
  {
    && done <= items && Predicted(p, done, items, j)
    && (forall i :: 0 <= i < j ==> Completed(p, prior[i], done, items, i))
    && Completed(p, done, done, items, j)
  }

  lemma ProcessedMore(p: Tables, prior: Chart, done: set<Item>, items: set<Item>, items': set<Item>, j: nat)
    requires |prior| == j && Processed(p, prior, done, items, j) && items <= items'
    ensures Processed(p, prior, done, items', j)
  {
    forall i | 0 <= i < j
      ensures Completed(p, prior[i], done, items', i)
    {
      assert Completed(p, prior[i], done, items, i);
    }
  }

  /** Settling the waiting positions of a configuration that waits for a nonterminal. */
  lemma ProcessedPrediction(p: Tables, prior: Chart, done: set<Item>, items: set<Item>, j: nat,
                            conf: int, s: seq<int>, all: seq<int>)
    requires |prior| == j && Processed(p, prior, done, items, j)
    requires InRange(p) && 0 <= conf < |p.steps| && p.steps[conf] >= 0 && Pairs(conf, s) <= items
    requires forall c :: c in p.starters[p.steps[conf]] ==> (c, j) in items
    requires forall x :: x in done + Pairs(conf, s) && x.0 == conf ==> x.1 in all
    requires (exists e :: e in done && e.1 == j && 0 <= e.0 < |p.steps| && p.steps[e.0] == p.steps[conf] - |p.nts|)
             ==> Pairs(conf + 1, all) <= items
    ensures Processed(p, prior, done + Pairs(conf, s), items, j)
  {
    var done' := done + Pairs(conf, s);
    forall x
      ensures x in Pairs(conf, s) <==> x.0 == conf && x.1 in s
    {
      PairIn(conf, s, x);
    }
    forall i | 0 <= i < j
      ensures Completed(p, prior[i], done', items, i)
    {
      assert Completed(p, prior[i], done, items, i);
    }
    forall x, y | x in done' && y in done' && Advances(p, x, y, j)
      ensures (x.0 + 1, x.1) in items
    {
      if x in Pairs(conf, s) {
        PairIn(conf + 1, all, (x.0 + 1, x.1));
      }
    }
  }

  /** Settling the waiting positions of a configuration that completes a nonterminal. */
  lemma ProcessedCompletion(p: Tables, prior: Chart, done: set<Item>, items: set<Item>, j: nat, conf: int, s: seq<int>)
    requires |prior| == j && Processed(p, prior, done, items, j)
    requires InRange(p) && 0 <= conf < |p.steps| && p.steps[conf] < 0 && Pairs(conf, s) <= items
    requires forall i, x :: i in s && 0 <= i < j && x in prior[i] && Waits(p, x, conf) ==> (x.0 + 1, x.1) in items
    requires forall x :: j in s && x in done && Waits(p, x, conf) ==> (x.0 + 1, x.1) in items
    ensures Processed(p, prior, done + Pairs(conf, s), items, j)
  {
    var done' := done + Pairs(conf, s);
    forall x
      ensures x in Pairs(conf, s) <==> x.0 == conf && x.1 in s
    {
      PairIn(conf, s, x);
    }
    hide Pairs;
    forall i | 0 <= i < j
      ensures Completed(p, prior[i], done', items, i)
    {
      assert Completed(p, prior[i], done, items, i);
    }
  }

  /** Item `x` waits for the nonterminal that `conf` completes. */
  ghost predicate Waits(p: Tables, x: Item, conf: int) {
    0 <= conf < |p.steps| && 0 <= x.0 < |p.steps| && p.steps[x.0] >= 0 && p.steps[conf] == p.steps[x.0] - |p.nts|
  }

  // ---- one configuration

  /** What is fixed while state `j` is filled: the grammar, the tokens, the tables. */
  datatype Context = Context(g: Grammar, toks: seq<Token>, p: Tables, dots: seq<Dot>)

  ghost predicate Sound(x: Context, items: set<Item>, j: int) {
    AllTrue(x.g, x.toks, x.p, x.dots, items, j)
  }

  ghost predicate ContextOk(x: Context) {
    Compiled(x.g, x.p, x.dots)
  }

  /** A union adds true items when what it moves on is completed by a true item. */
  lemma UnionSound(x: Context, from: set<Item>, i: int, items: set<Item>, j: int, pred: int, s: seq<int>, e: int)
    requires ContextOk(x) && Sound(x, from, i) && Sound(x, items, j) && Pairs(pred, s) <= from
    requires (e, i) in items && Waits(x.p, (pred, 0), e)
    ensures Sound(x, items + Pairs(pred + 1, s), j)
  {
    forall y | y in Pairs(pred + 1, s)
      ensures ItemTrue(x.g, x.toks, x.p, x.dots, y.0, y.1, j)
    {
      PairIn(pred + 1, s, y);
      PairIn(pred, s, (pred, y.1));
      AdvanceTrue(x.g, x.toks, x.p, x.dots, (pred, y.1), (e, i), i, j);
    }
  }

  /** A step that adds true items to state `j` and settles none. */
  ghost predicate Filling(x: Context, st: State, j: nat, view: map<int, View>, done: set<Item>, items: set<Item>)
    reads st
  {
    && st.Valid(|x.p.steps|, j + 1) && SettledKept(view, st.view) && st.done == done
    && items <= st.items && Sound(x, st.items, j)
  }

  /** Completing over empty spans: a nonterminal that is already completed at `j` moves `conf` on. */
  method CompleteEmpty(st: State, conf: int, j: nat, p: Tables, ghost x: Context, ghost s: seq<int>)
    requires ContextOk(x) && x.p == p && 0 <= conf < |p.steps| && p.steps[conf] >= 0
    requires conf in st.view && s == st.view[conf].settled && Filling(x, st, j, st.view, st.done, Pairs(conf, s))
    modifies st
    ensures Filling(x, st, j, old(st.view), old(st.done), old(st.items))
    ensures forall e :: e in p.enders[p.steps[conf]] && (e, j) in old(st.items) ==> Pairs(conf + 1, s) <= st.items
  {
    ghost var view0, done0, items0 := st.view, st.done, st.items;
    var l := p.enders[p.steps[conf]];
    EndersWait(x, conf);
    assert Filling(x, st, j, view0, done0, items0) && Pairs(conf, s) <= items0;
    hide *;
    ghost var t: nat := 0;
    ghost var all := l;
    while l != []
      invariant t <= |all| && l == all[t..] && Filling(x, st, j, view0, done0, items0)
      invariant forall u :: 0 <= u < t && (all[u], j) in items0 ==> Pairs(conf + 1, s) <= st.items
      decreases |l|
    {
      var ender := l[0];
      assert ender == all[t] && ender in all;
      CompleteEmptyStep(st, conf, ender, j, x, s, view0, done0, items0);
      l := l[1..];
      t := t + 1;
    }
  }

  method CompleteEmptyStep(st: State, conf: int, ender: int, j: nat, ghost x: Context, ghost s: seq<int>,
                           ghost view: map<int, View>, ghost done: set<Item>, ghost items: set<Item>)
    requires ContextOk(x) && Waits(x.p, (conf, 0), ender) && conf + 1 < |x.p.steps|
    requires conf in view && s == view[conf].settled && Pairs(conf, s) <= items && Filling(x, st, j, view, done, items)
    modifies st
    ensures Filling(x, st, j, view, done, items) && old(st.items) <= st.items
    ensures (ender, j) in items ==> Pairs(conf + 1, s) <= st.items
  {
    ghost var nb := |x.p.steps|;
    st.ContainsItem(ender, j, nb, j + 1);
    if st.Contains(ender, j) {
      UnionSound(x, st.items, j, st.items, j, conf, s, ender);
      st.SetAt(conf, nb, j + 1);
      hide ContextOk;
      hide SetsOk;
      hide IsStack;
      hide StackHoldsWaiting;
      hide ViewsItems;
      hide IsConfSet;
      hide Pairs;
      hide Sound;
      MoveOn(st, conf, st.sets[conf], st.view[conf], nb, j + 1, j + 1);
    }
  }

  lemma EndersWait(x: Context, conf: int)
    requires ContextOk(x) && 0 <= conf < |x.p.steps| && x.p.steps[conf] >= 0
    ensures x.p.steps[conf] < |x.p.nts| == |x.p.enders| && conf + 1 < |x.p.steps|
    ensures forall e :: e in x.p.enders[x.p.steps[conf]] ==> Waits(x.p, (conf, 0), e) && 0 <= e < |x.p.steps|
  {
    assert ListsOk(x.p, x.dots, x.p.steps[conf]);
  }

  /** `conf_set_get*` and `conf_set_union` for the configuration after `pred`. */
  method MoveOn(st: State, pred: int, other: ConfSet, ghost ov: View, ghost nb: nat, ghost osize: nat, ghost size: nat)
    requires st.Valid(nb, size) && 0 <= pred && pred + 1 < nb && IsConfSet(other, ov, osize) && osize <= size
    modifies st
    ensures st.Valid(nb, size) && SettledKept(old(st.view), st.view) && st.done == old(st.done)
    ensures st.items == old(st.items) + Pairs(pred + 1, ov.settled)
  {
    st.Get(pred + 1, nb, size);
    st.Union(pred + 1, other, ov, osize, nb, size);
  }

  /** The states before `j` are finished. */
  ghost predicate Finished(x: Context, before: seq<State>, prior: Chart)
    reads before
  {
    && |before| == |prior|
    && forall i :: 0 <= i < |before| ==>
         before[i].Valid(|x.p.steps|, i + 1) && before[i].items == before[i].done == prior[i] && Sound(x, prior[i], i)
  }

  /** The items of state `i`, seen while state `j` is filled, that can be moved on. */
  ghost function Movable(prior: Chart, done: set<Item>, i: int): set<Item> {
    if 0 <= i < |prior| then prior[i] else done
  }

  /** Every movable item of `pred` at `i` has been moved on. */
  ghost predicate Moved(prior: Chart, done: set<Item>, items: set<Item>, pred: int, i: int) {
    forall y :: y in Movable(prior, done, i) && y.0 == pred ==> (pred + 1, y.1) in items
  }

  /** One turn of the completer's inner loop: the items of `pred` in state `i`. */
  method CompleteStep(from: State, st: State, j: nat, pred: int, conf: int, i: nat, ghost x: Context,
                      ghost prior: Chart, ghost view: map<int, View>, ghost done: set<Item>, ghost items: set<Item>)
    requires ContextOk(x) && Waits(x.p, (pred, 0), conf) && pred + 1 < |x.p.steps| && i <= j
    requires from.Valid(|x.p.steps|, i + 1) && from.done == Movable(prior, done, i) && Sound(x, from.done, i)
    requires Filling(x, st, j, view, done, items) && (conf, i) in items
    modifies st
    ensures Filling(x, st, j, view, done, items) && old(st.items) <= st.items
    ensures Moved(prior, done, st.items, pred, i)
  {
    hide *;
    ghost var view1, items1, nb := st.view, st.items, |x.p.steps|;
    FillingParts(x, st, j, view, done, items);
    from.SetAt(pred, nb, i + 1);
    from.PairsOf(pred, nb, i + 1);
    if pred in from.sets {
      ghost var s := from.view[pred].settled;
      UnionSound(x, from.done, i, st.items, j, pred, s, conf);
      MoveOn(st, pred, from.sets[pred], from.view[pred], nb, i + 1, j + 1);
      FillingStep(x, st, j, view, done, items, view1, items1);
      MovedPairs(prior, done, st.items, pred, i, s);
    } else {
      MovedNone(prior, done, st.items, pred, i);
    }
  }

  lemma FillingParts(x: Context, st: State, j: nat, view: map<int, View>, done: set<Item>, items: set<Item>)
    requires Filling(x, st, j, view, done, items)
    ensures st.Valid(|x.p.steps|, j + 1) && SettledKept(view, st.view) && st.done == done
    ensures items <= st.items && Sound(x, st.items, j)
  {}

  lemma FillingStep(x: Context, st: State, j: nat, view: map<int, View>, done: set<Item>, items: set<Item>,
                    view1: map<int, View>, items1: set<Item>)
    requires st.Valid(|x.p.steps|, j + 1) && SettledKept(view, view1) && SettledKept(view1, st.view) && st.done == done
    requires items <= items1 <= st.items && Sound(x, st.items, j)
    ensures Filling(x, st, j, view, done, items)
  {}

  lemma SourceState(states: seq<State>, st: State, j: nat, i: int, x: Context, prior: Chart,
                    view: map<int, View>, done: set<Item>, items: set<Item>)
    requires j < |states| && st == states[j] && Finished(x, states[..j], prior) && 0 <= i <= j
    requires Filling(x, st, j, view, done, items) && done <= items
    ensures states[i].Valid(|x.p.steps|, i + 1) && states[i].done == Movable(prior, done, i)
    ensures Sound(x, Movable(prior, done, i), i)
  {
    assert i < j ==> states[i] == states[..j][i];
  }

  lemma MovedNone(prior: Chart, done: set<Item>, items: set<Item>, pred: int, i: int)
    requires forall y :: y in Movable(prior, done, i) ==> y.0 != pred
    ensures Moved(prior, done, items, pred, i)
  {}

  lemma MovedPairs(prior: Chart, done: set<Item>, items: set<Item>, pred: int, i: int, s: seq<int>)
    requires Pairs(pred + 1, s) <= items
    requires forall y :: y in Movable(prior, done, i) && y.0 == pred ==> y in Pairs(pred, s)
    ensures Moved(prior, done, items, pred, i)
  {
    forall y | y in Movable(prior, done, i) && y.0 == pred
      ensures (pred + 1, y.1) in items
    {
      PairIn(pred, s, y);
      PairIn(pred + 1, s, (pred + 1, y.1));
    }
  }

  lemma MovedMore(prior: Chart, done: set<Item>, items: set<Item>, items': set<Item>, pred: int, i: int)
    requires Moved(prior, done, items, pred, i) && items <= items'
    ensures Moved(prior, done, items', pred, i)
  {}

  /** Every listed predecessor has been moved on at every position of `s`. */
  ghost predicate AllMoved(prior: Chart, done: set<Item>, items: set<Item>, preds: seq<int>, s: seq<int>) {
    forall u, t :: 0 <= u < |preds| && 0 <= t < |s| ==> Moved(prior, done, items, preds[u], s[t])
  }

  lemma AllMovedStep(prior: Chart, done: set<Item>, items: set<Item>, items': set<Item>, pred: int, s: seq<int>, i: int)
    requires AllMoved(prior, done, items, [pred], s) && items <= items' && Moved(prior, done, items', pred, i)
    ensures AllMoved(prior, done, items', [pred], s + [i])
  {
    hide Moved;
    var s' := s + [i];
    forall u, t | 0 <= u < 1 && 0 <= t < |s'|
      ensures Moved(prior, done, items', [pred][u], s'[t])
    {
      if t < |s| {
        assert Moved(prior, done, items, [pred][u], s[t]);
        MovedMore(prior, done, items, items', pred, s[t]);
      }
    }
  }

  lemma AllMovedNext(prior: Chart, done: set<Item>, items: set<Item>, items': set<Item>, preds: seq<int>, pred: int, s: seq<int>)
    requires AllMoved(prior, done, items, preds, s) && items <= items' && AllMoved(prior, done, items', [pred], s)
    ensures AllMoved(prior, done, items', preds + [pred], s)
  {
    hide Moved;
    var preds' := preds + [pred];
    forall u, t | 0 <= u < |preds'| && 0 <= t < |s|
      ensures Moved(prior, done, items', preds'[u], s[t])
    {
      if u < |preds| {
        assert Moved(prior, done, items, preds[u], s[t]);
        MovedMore(prior, done, items, items', preds[u], s[t]);
      } else {
        assert Moved(prior, done, items', [pred][0], s[t]);
      }
    }
  }

  /** The completer's inner loop: `pred` at every new position of `conf`, which the links lead through
      from `head`; the set of `conf` itself may grow meanwhile. */
  method CompleteOne(states: seq<State>, st: State, j: nat, pred: int, conf: int, head: int, ghost at: nat,
                     ghost x: Context, ghost prior: Chart, ghost view: map<int, View>, ghost done: set<Item>, ghost items: set<Item>)
    requires j < |states| && st == states[j] && st !in states[..j] && Finished(x, states[..j], prior)
    requires ContextOk(x) && Waits(x.p, (pred, 0), conf) && pred + 1 < |x.p.steps|
    requires Filling(x, st, j, view, done, items) && done <= items
    requires conf in view && at <= |view[conf].settled| && head == PositionAt(view[conf].settled, at)
    requires Pairs(conf, view[conf].settled) <= items
    modifies st
    ensures Filling(x, st, j, view, done, items) && old(st.items) <= st.items
    ensures AllMoved(prior, done, st.items, [pred], view[conf].settled[at..])
  {
    hide *;
    ghost var s, t, items0 := view[conf].settled, at, st.items;
    ghost var before := states[..j];
    AllMovedNone(prior, done, st.items, [pred], s[at..t]);
    var i := head;
    while i >= 0
      invariant at <= t <= |s| && i == PositionAt(s, t)
      invariant Filling(x, st, j, view, done, items) && items0 <= st.items && Finished(x, before, prior)
      invariant AllMoved(prior, done, st.items, [pred], s[at..t])
      decreases |s| - t
    {
      ghost var items1 := st.items;
      PositionOf(x, st, j, view, done, items, conf, s, t);
      SourceState(states, st, j, i, x, prior, view, done, items);
      CompleteStep(states[i], st, j, pred, conf, i, x, prior, view, done, items);
      AllMovedStep(prior, done, items1, st.items, pred, s[at..t], i);
      assert s[at..t + 1] == s[at..t] + [i];
      PositionOf(x, st, j, view, done, items, conf, s, t);
      i := st.sets[conf][i + 5];
      t := t + 1;
    }
    PositionEnd(x, st, j, view, done, items, conf, s, t);
    assert s[at..t] == s[at..];
  }

  lemma AllMovedNone(prior: Chart, done: set<Item>, items: set<Item>, preds: seq<int>, s: seq<int>)
    requires preds == [] || s == []
    ensures AllMoved(prior, done, items, preds, s)
  {}

  /** A settled position of `conf`, and the link that follows it. */
  lemma PositionOf(x: Context, st: State, j: nat, view: map<int, View>, done: set<Item>, items: set<Item>,
                   conf: int, s: seq<int>, t: nat)
    requires Filling(x, st, j, view, done, items) && conf in view && s == view[conf].settled
    requires PositionAt(s, t) >= 0 && Pairs(conf, s) <= items
    ensures t < |s| && PositionAt(s, t) == s[t] && 0 <= s[t] <= j && (conf, s[t]) in items
    ensures conf in st.sets && s[t] + 5 in st.sets[conf] && st.sets[conf][s[t] + 5] == PositionAt(s, t + 1)
  {
    PairIn(conf, s, (conf, s[t]));
    SettledLink(st.sets[conf], st.view[conf], j + 1, t);
  }

  lemma PositionEnd(x: Context, st: State, j: nat, view: map<int, View>, done: set<Item>, items: set<Item>,
                    conf: int, s: seq<int>, t: nat)
    requires Filling(x, st, j, view, done, items) && conf in view && s == view[conf].settled
    requires PositionAt(s, t) < 0 && t <= |s|
    ensures t == |s|
  {
    if t < |s| {
      SettledLink(st.sets[conf], st.view[conf], j + 1, t);
    }
  }

  /** The completer: every predecessor of the nonterminal that `conf` completes, at every new position. */
  method Complete(states: seq<State>, st: State, j: nat, conf: int, head: int, p: Tables, ghost at: nat, ghost x: Context,
                  ghost prior: Chart, ghost view: map<int, View>, ghost done: set<Item>, ghost items: set<Item>)
    requires j < |states| && st == states[j] && st !in states[..j] && Finished(x, states[..j], prior)
    requires ContextOk(x) && x.p == p && InRange(p) && 0 <= conf < |p.steps| && p.steps[conf] < 0
    requires Filling(x, st, j, view, done, items) && done <= items
    requires conf in view && at <= |view[conf].settled| && head == PositionAt(view[conf].settled, at)
    requires Pairs(conf, view[conf].settled) <= items
    modifies st
    ensures Filling(x, st, j, view, done, items)
    ensures AllMoved(prior, done, st.items, p.predictors[p.steps[conf] + |p.nts|], view[conf].settled[at..])
  {
    hide *;
    RangeOfStep(p, conf);
    PredictorsWait(x, conf);
    ghost var s, before := view[conf].settled[at..], states[..j];
    var l := p.predictors[p.steps[conf] + |p.nts|];
    ghost var preds, t := l, 0;
    AllMovedNone(prior, done, st.items, preds[..0], s);
    while l != []
      invariant 0 <= t <= |preds| && l == preds[t..]
      invariant Filling(x, st, j, view, done, items) && Finished(x, before, prior)
      invariant AllMoved(prior, done, st.items, preds[..t], s)
      decreases |l|
    {
      ghost var items1 := st.items;
      var pred := l[0];
      assert pred == preds[t] && pred in preds;
      CompleteOne(states, st, j, pred, conf, head, at, x, prior, view, done, items);
      AllMovedNext(prior, done, items1, st.items, preds[..t], pred, s);
      assert preds[..t + 1] == preds[..t] + [pred];
      l := l[1..];
      t := t + 1;
    }
    assert preds[..t] == preds;
  }

  lemma RangeOfStep(p: Tables, conf: int)
    requires InRange(p) && 0 <= conf < |p.steps|
    ensures -|p.nts| <= p.steps[conf] < |p.nts| == |p.predictors| == |p.starters| == |p.enders|
    ensures p.steps[conf] >= 0 ==> conf + 1 < |p.steps|
  {}

  lemma PredictorsWait(x: Context, conf: int)
    requires ContextOk(x) && 0 <= conf < |x.p.steps| && x.p.steps[conf] < 0
    ensures 0 <= x.p.steps[conf] + |x.p.nts| < |x.p.predictors|
    ensures forall c :: c in x.p.predictors[x.p.steps[conf] + |x.p.nts|] ==> Waits(x.p, (c, 0), conf) && c + 1 < |x.p.steps|
    ensures forall y :: Waits(x.p, y, conf) ==> y.0 in x.p.predictors[x.p.steps[conf] + |x.p.nts|]
  {
    assert InRange(x.p);
    assert ListsOk(x.p, x.dots, x.p.steps[conf] + |x.p.nts|);
  }

  /** The items that the waiting list gave were all moved on. */
  lemma CompletionDone(x: Context, prior: Chart, done: set<Item>, done': set<Item>, items: set<Item>, j: nat, conf: int,
                       s: seq<int>)
    requires ContextOk(x) && |prior| == j && 0 <= conf < |x.p.steps| && x.p.steps[conf] < 0 && InRange(x.p)
    requires Processed(x.p, prior, done, items, j) && Pairs(conf, s) <= items && done' == done + Pairs(conf, s)
    requires forall i :: i in s ==> 0 <= i <= j
    requires AllMoved(prior, done', items, x.p.predictors[x.p.steps[conf] + |x.p.nts|], s)
    ensures Processed(x.p, prior, done', items, j)
  {
    hide Compiled;
    hide Processed;
    hide Pairs;
    var preds := x.p.predictors[x.p.steps[conf] + |x.p.nts|];
    PredictorsWait(x, conf);
    forall i, y | i in s && y in Movable(prior, done', i) && Waits(x.p, y, conf)
      ensures (y.0 + 1, y.1) in items
    {
      var u :| 0 <= u < |preds| && preds[u] == y.0;
      var t :| 0 <= t < |s| && s[t] == i;
      assert Moved(prior, done', items, preds[u], s[t]);
    }
    ProcessedCompletion(x.p, prior, done, items, j, conf, s);
  }

  lemma PredictionDone(x: Context, prior: Chart, done: set<Item>, items: set<Item>, j: nat, conf: int, s: seq<int>,
                       all: seq<int>)
    requires ContextOk(x) && |prior| == j && InRange(x.p) && 0 <= conf < |x.p.steps| && x.p.steps[conf] >= 0
    requires Processed(x.p, prior, done, items, j) && Pairs(conf, s) <= items
    requires Starts(x.p.starters[x.p.steps[conf]], j) <= items
    requires forall y :: y in done + Pairs(conf, s) && y.0 == conf ==> y in Pairs(conf, all)
    requires forall e :: e in x.p.enders[x.p.steps[conf]] && (e, j) in done ==> Pairs(conf + 1, all) <= items
    ensures Processed(x.p, prior, done + Pairs(conf, s), items, j)
  {
    var l := x.p.starters[x.p.steps[conf]];
    forall c | c in l
      ensures (c, j) in items
    {
      StartIn(l, j, (c, j));
    }
    forall y | y in done + Pairs(conf, s) && y.0 == conf
      ensures y.1 in all
    {
      PairIn(conf, all, y);
    }
    assert ListsOk(x.p, x.dots, x.p.steps[conf]);
    hide Compiled;
    hide Processed;
    hide Pairs;
    hide Starts;
    forall e | e in done && e.1 == j && 0 <= e.0 < |x.p.steps| && x.p.steps[e.0] == x.p.steps[conf] - |x.p.nts|
      ensures Pairs(conf + 1, all) <= items
    {
      assert e == (e.0, j);
    }
    ProcessedPrediction(x.p, prior, done, items, j, conf, s, all);
  }

  // ---- one state

  /** State `j` while `forw` works on it. */
  ghost predicate Filled(x: Context, st: State, prior: Chart, j: nat)
    requires |prior| == j
    reads st
  {
    st.Valid(|x.p.steps|, j + 1) && Sound(x, st.items, j) && Processed(x.p, prior, st.done, st.items, j)
  }

  lemma FilledParts(x: Context, st: State, prior: Chart, j: nat)
    requires |prior| == j && Filled(x, st, prior, j)
    ensures st.Valid(|x.p.steps|, j + 1) && Sound(x, st.items, j) && Processed(x.p, prior, st.done, st.items, j)
    ensures st.done <= st.items
  {}

  lemma FilledIntro(x: Context, st: State, prior: Chart, j: nat, view: map<int, View>, done: set<Item>, items: set<Item>)
    requires |prior| == j && Filling(x, st, j, view, done, items) && Processed(x.p, prior, done, st.items, j)
    ensures Filled(x, st, prior, j)
  {}

  /** Right after a configuration came off the work stack. */
  lemma AfterPop(x: Context, st: State, j: nat, view: map<int, View>, done: set<Item>, conf: int, at: nat)
    requires st.Valid(|x.p.steps|, j + 1) && Sound(x, st.items, j) && conf in view && view[conf].waiting != []
    requires st.view == view[conf := View(view[conf].settled + view[conf].waiting, [])]
    requires at == |view[conf].settled| && st.done == done + Pairs(conf, view[conf].waiting)
    ensures Filling(x, st, j, st.view, st.done, st.items) && conf in st.view && at <= |st.view[conf].settled|
    ensures st.view[conf].settled[at..] == view[conf].waiting
    ensures PositionAt(st.view[conf].settled, at) == view[conf].waiting[0]
    ensures Pairs(conf, st.view[conf].settled) <= st.done <= st.items
    ensures Pairs(conf, view[conf].waiting) <= st.items
    ensures forall y :: y in st.done && y.0 == conf ==> y in Pairs(conf, st.view[conf].settled)
    ensures forall i :: i in view[conf].waiting ==> 0 <= i <= j
  {
    st.PairsOf(conf, |x.p.steps|, j + 1);
    forall i | i in view[conf].waiting
      ensures 0 <= i <= j
    {
      PairIn(conf, view[conf].waiting, (conf, i));
      st.ItemInRange(conf, i, |x.p.steps|, j + 1);
    }
  }

  /** Every item that can occur in a state. */
  ghost function Box(nb: nat, size: nat): set<Item> {
    set c, i | 0 <= c < nb && 0 <= i < size :: (c, i)
  }

  lemma PopProgress(st: State, nb: nat, size: nat, view: map<int, View>, done: set<Item>, conf: int)
    requires st.Valid(nb, size) && conf in view && view[conf].waiting != []
    requires ViewsItems(view, st.items, done) && (forall i :: i in view[conf].settled ==> i !in view[conf].waiting)
    requires st.done == done + Pairs(conf, view[conf].waiting)
    ensures Box(nb, size) - st.done < Box(nb, size) - done
  {
    var i := view[conf].waiting[0];
    PairIn(conf, view[conf].waiting, (conf, i));
    assert (conf, i).0 == conf && (conf, i).1 == i;
    st.ItemInRange(conf, i, nb, size);
    assert (conf, i) in Box(nb, size) - done;
  }

  lemma SeparateAt(st: State, nb: nat, size: nat, conf: int)
    requires st.Valid(nb, size) && conf in st.view
    ensures ViewsItems(st.view, st.items, st.done)
    ensures forall i :: i in st.view[conf].settled ==> i !in st.view[conf].waiting
  {
    assert IsConfSet(st.sets[conf], st.view[conf], size);
  }

  lemma StartersSound(x: Context, items: set<Item>, j: int, nt: int)
    requires ContextOk(x) && Sound(x, items, j) && 0 <= j <= |x.toks| && 0 <= nt < |x.p.nts| == |x.p.starters|
    ensures Sound(x, items + Starts(x.p.starters[nt], j), j)
    ensures forall c :: c in x.p.starters[nt] ==> 0 <= c < |x.p.steps|
  {
    var l := x.p.starters[nt];
    assert ListsOk(x.p, x.dots, nt);
    hide Compiled;
    forall y | y in Starts(l, j)
      ensures ItemTrue(x.g, x.toks, x.p, x.dots, y.0, y.1, j)
    {
      StartIn(l, j, y);
      StarterTrue(x.g, x.toks, x.p, x.dots, nt, y.0, j);
    }
  }

  /** The prediction half of a round. */
  method Predict(st: State, conf: int, j: nat, p: Tables, ghost x: Context, ghost s: seq<int>)
    requires ContextOk(x) && x.p == p && InRange(p) && 0 <= conf < |p.steps| && p.steps[conf] >= 0 && j <= |x.toks|
    requires conf in st.view && s == st.view[conf].settled && Pairs(conf, s) <= st.items
    requires Filling(x, st, j, st.view, st.done, st.items)
    modifies st
    ensures Filling(x, st, j, old(st.view), old(st.done), old(st.items))
    ensures Starts(p.starters[p.steps[conf]], j) <= st.items
    ensures forall e :: e in p.enders[p.steps[conf]] && (e, j) in old(st.items) ==> Pairs(conf + 1, s) <= st.items
  {
    hide *;
    ghost var view, done, items := st.view, st.done, st.items;
    RangeOfStep(p, conf);
    FillingParts(x, st, j, view, done, items);
    StartersSound(x, items, j, p.steps[conf]);
    AdjoinAll(st, p.starters[p.steps[conf]], j, |p.steps|, j + 1);
    FillingStep(x, st, j, view, done, items, view, items) by {
      SettledRefl(view);
    }
    KeptAt(view, st.view, conf);
    ghost var view1, items1 := st.view, st.items;
    FillingStep(x, st, j, view1, done, Pairs(conf, s), view1, items1) by {
      SettledRefl(view1);
    }
    CompleteEmpty(st, conf, j, p, x, s);
    FillingParts(x, st, j, view1, done, items1);
    FillingStep(x, st, j, view, done, items, view1, items1);
  }

  lemma KeptAt(before: map<int, View>, after: map<int, View>, conf: int)
    requires SettledKept(before, after) && conf in before
    ensures conf in after && after[conf].settled == before[conf].settled
  {}

  /** One round of `forw`. */
  method ForwRound(states: seq<State>, st: State, j: nat, p: Tables, ghost x: Context, ghost prior: Chart)
    requires j < |states| && st == states[j] && st !in states[..j] && Finished(x, states[..j], prior) && j <= |x.toks|
    requires ContextOk(x) && x.p == p && InRange(p) && |prior| == j && Filled(x, st, prior, j) && st.work >= 0
    modifies st
    ensures Filled(x, st, prior, j) && old(st.items) <= st.items
    ensures Box(|p.steps|, j + 1) - st.done < Box(|p.steps|, j + 1) - old(st.done)
  {
    hide *;
    ghost var view, done, items, nb := st.view, st.done, st.items, |p.steps|;
    FilledParts(x, st, prior, j);
    var conf, head;
    ghost var at;
    conf, head, at := Take(st, nb, j + 1);
    AfterPop(x, st, j, view, done, conf, at);
    ghost var view1, done1, s, fresh_ := st.view, st.done, st.view[conf].settled, view[conf].waiting;
    RangeOfStep(p, conf);
    if p.steps[conf] >= 0 {
      Predict(st, conf, j, p, x, s);
      FillingParts(x, st, j, view1, done1, items);
      ProcessedMore(p, prior, done, items, st.items, j);
      PredictionDone(x, prior, done, st.items, j, conf, fresh_, s);
    } else {
      Complete(states, st, j, conf, head, p, at, x, prior, view1, done1, items);
      FillingParts(x, st, j, view1, done1, items);
      ProcessedMore(p, prior, done, items, st.items, j);
      CompletionDone(x, prior, done, done1, st.items, j, conf, fresh_);
    }
    FilledIntro(x, st, prior, j, view1, done1, items);
  }

  method Take(st: State, ghost nb: nat, ghost size: nat) returns (conf: int, head: int, ghost at: nat)
    requires st.Valid(nb, size) && st.work >= 0
    modifies st
    ensures st.Valid(nb, size) && conf in old(st.view) && 0 <= conf < nb && st.items == old(st.items)
    ensures var v := old(st.view)[conf];
            && v.waiting != [] && st.view == old(st.view)[conf := View(v.settled + v.waiting, [])]
            && at == |v.settled| && head == v.waiting[0] && st.done == old(st.done) + Pairs(conf, v.waiting)
    ensures Box(nb, size) - st.done < Box(nb, size) - old(st.done)
  {
    hide *;
    ghost var view, done := st.view, st.done;
    st.TopInView(nb, size);
    SeparateAt(st, nb, size, st.work);
    conf, head, at := st.Pop(nb, size);
    PopProgress(st, nb, size, view, done, conf);
  }

  /** `forw`: state `j` is filled until nothing waits. */
  method Forw(states: seq<State>, st: State, j: nat, p: Tables, ghost x: Context, ghost prior: Chart)
    requires j < |states| && st == states[j] && st !in states[..j] && Finished(x, states[..j], prior) && j <= |x.toks|
    requires ContextOk(x) && x.p == p && InRange(p) && |prior| == j && Filled(x, st, prior, j)
    modifies st
    ensures Filled(x, st, prior, j) && st.items == st.done && old(st.items) <= st.items
  {
    hide *;
    ghost var items, before := st.items, states[..j];
    while st.work >= 0
      invariant Filled(x, st, prior, j) && items <= st.items && Finished(x, before, prior)
      decreases Box(|p.steps|, j + 1) - st.done
    {
      ForwRound(states, st, j, p, x, prior);
    }
    FilledParts(x, st, prior, j);
    st.NothingWaits(|p.steps|, j + 1);
  }

  // ---- the whole input

  /** `ind`: the place of a nonterminal, or -1. */
  method Ind(nt: Symbol, nts: seq<Symbol>) returns (i: int)
    ensures -1 <= i < |nts| && (i >= 0 ==> nts[i] == nt) && (i == -1 <==> nt !in nts)
  {
    i := |nts| - 1;
    while i >= 0
      invariant -1 <= i < |nts| && nt !in nts[i + 1..]
    {
      if nts[i] == nt {
        return;
      }
      assert nts[i..] == [nts[i]] + nts[i + 1..];
      i := i - 1;
    }
    assert nts[0..] == nts;
  }

  /** The nonterminals that a token stands for; names that the grammar does not use are dropped. */
  method KindsOf(tok: Token, nts: seq<Symbol>) returns (l: seq<int>)
    ensures forall c :: c in l ==> 0 <= c < |nts| && nts[c] in tok.kinds
    ensures forall k :: k in tok.kinds && k in nts ==> exists c :: c in l && nts[c] == k
  {
    var l1 := tok.kinds;
    var l2: seq<int> := [];
    ghost var t: nat := 0;
    while l1 != []
      invariant t <= |tok.kinds| && l1 == tok.kinds[t..]
      invariant forall c :: c in l2 ==> 0 <= c < |nts| && nts[c] in tok.kinds
      invariant forall u :: 0 <= u < t && tok.kinds[u] in nts ==> exists c :: c in l2 && nts[c] == tok.kinds[u]
      decreases |l1|
    {
      var i := Ind(l1[0], nts);
      assert l1[0] == tok.kinds[t];
      if i >= 0 {
        KindAdded(l2, i, nts, tok.kinds, t);
        l2 := [i] + l2;
      }
      l1 := l1[1..];
      t := t + 1;
    }
    l := Reversed(l2);
    ReversedSame(l2);
  }

  lemma KindAdded(l: seq<int>, i: int, nts: seq<Symbol>, kinds: seq<Symbol>, t: nat)
    requires 0 <= i < |nts| && t < |kinds| && nts[i] == kinds[t] && forall c :: c in l ==> 0 <= c < |nts|
    requires forall u :: 0 <= u < t && kinds[u] in nts ==> exists c :: c in l && nts[c] == kinds[u]
    ensures forall c :: c in [i] + l ==> 0 <= c < |nts|
    ensures forall u :: 0 <= u < t + 1 && kinds[u] in nts ==> exists c :: c in [i] + l && nts[c] == kinds[u]
  {
    var l' := [i] + l;
    forall u | 0 <= u < t + 1 && kinds[u] in nts
      ensures exists c :: c in l' && nts[c] == kinds[u]
    {
      if u < t {
        var c :| c in l && nts[c] == kinds[u];
        assert c in l';
      } else {
        assert i in l';
      }
    }
  }

  function Reversed(s: seq<int>): (r: seq<int>)
    ensures |r| == |s|
  {
    if s == [] then [] else Reversed(s[1..]) + [s[0]]
  }

  lemma {:induction false} ReversedSame(s: seq<int>)
    ensures forall c :: c in Reversed(s) <==> c in s
  {
    if s != [] {
      ReversedSame(s[1..]);
      assert s == [s[0]] + s[1..];
    }
  }

  /** `make_states` */
  method MakeStates(n: nat, ghost nb: nat) returns (states: seq<State>)
    ensures |states| == n + 1 && (forall i :: 0 <= i < |states| ==> fresh(states[i]))
    ensures forall i, j :: 0 <= i < j < |states| ==> states[i] != states[j]
    ensures forall i :: 0 <= i < |states| ==> states[i].Valid(nb, i + 1) && states[i].items == {} == states[i].done
    ensures forall i :: 0 <= i < |states| ==> states[i].view == map[]
  {
    states := [];
    var i := n;
    while i >= 0
      invariant -1 <= i <= n && |states| == n - i
      invariant forall k :: 0 <= k < |states| ==> fresh(states[k])
      invariant forall k, j :: 0 <= k < j < |states| ==> states[k] != states[j]
      invariant forall k :: 0 <= k < |states| ==> states[k].Blank()
    {
      var st := new State();
      states := [st] + states;
      i := i - 1;
    }
    BlankValid(states, nb);
  }

  lemma BlankValid(states: seq<State>, nb: nat)
    requires forall k :: 0 <= k < |states| ==> states[k].Blank()
    ensures forall i :: 0 <= i < |states| ==> states[i].Valid(nb, i + 1) && states[i].items == {} == states[i].done
    ensures forall i :: 0 <= i < |states| ==> states[i].view == map[]
  {}

  /** The finished states so far are closed. */
  ghost predicate ClosedSoFar(x: Context, prior: Chart) {
    && 0 < |prior| <= |x.toks| + 1 && Started(x.p, prior)
    && forall j :: 0 <= j < |prior| ==> StateClosed(x.p, x.toks, prior, j)
  }

  /** A filled state closes the chart up to it. */
  lemma StateFinished(x: Context, prior: Chart, items: set<Item>, j: nat)
    requires |prior| == j && Processed(x.p, prior, items, items, j) && Scanned(x.p, x.toks, items, j)
    ensures StateClosed(x.p, x.toks, prior + [items], j)
  {
    var chart := prior + [items];
    forall i | 0 <= i <= j
      ensures Completed(x.p, chart[i], chart[j], chart[j], i)
    {
      assert i < j ==> Completed(x.p, prior[i], items, items, i);
    }
  }

  lemma ClosedExtended(x: Context, prior: Chart, items: set<Item>)
    requires ClosedSoFar(x, prior) && |prior| <= |x.toks| && StateClosed(x.p, x.toks, prior + [items], |prior|)
    ensures ClosedSoFar(x, prior + [items])
  {
    var chart := prior + [items];
    forall j | 0 <= j < |chart|
      ensures StateClosed(x.p, x.toks, chart, j)
    {
      if j < |prior| {
        assert StateClosed(x.p, x.toks, prior, j);
        forall i | 0 <= i <= j
          ensures Completed(x.p, chart[i], chart[j], chart[j], i)
        {
          assert Completed(x.p, prior[i], prior[j], prior[j], i);
        }
      }
    }
  }

  lemma FinishedExtended(x: Context, states: seq<State>, prior: Chart, j: nat)
    requires j < |states| && Finished(x, states[..j], prior) && |prior| == j && Filled(x, states[j], prior, j)
    requires states[j].items == states[j].done
    ensures Finished(x, states[..j + 1], prior + [states[j].items])
  {
    var before := states[..j + 1];
    forall i | 0 <= i < j
      ensures before[i] == states[..j][i]
    {
    }
  }

  /** The kinds of token `i`, as positions of the state after it. */
  lemma ScannedTokens(x: Context, items: set<Item>, l: seq<int>, i: nat)
    requires ContextOk(x) && i < |x.toks| && Starts(l, i) <= items
    requires forall c :: c in l ==> 0 <= c < |x.p.nts| && x.p.nts[c] in x.toks[i].kinds
    requires forall k :: k in x.toks[i].kinds && k in x.p.nts ==> exists c :: c in l && x.p.nts[c] == k
    ensures Scanned(x.p, x.toks, items, i + 1) && Sound(x, Starts(l, i), i + 1)
    ensures forall c :: c in l ==> 0 <= c < |x.p.steps|
  {
    var nts := x.p.nts;
    forall c | 0 <= c < |nts| && nts[c] in x.toks[i].kinds
      ensures (c, i) in items
    {
      var d :| d in l && nts[d] == nts[c];
      assert c == d;
      StartIn(l, i, (c, i));
    }
    forall y | y in Starts(l, i)
      ensures ItemTrue(x.g, x.toks, x.p, x.dots, y.0, y.1, i + 1)
    {
      StartIn(l, i, y);
      assert DotOk(x.g, x.p, x.dots, y.0);
    }
  }

  /** A blank state, given its first items. */
  lemma FilledStart(x: Context, st: State, prior: Chart, j: nat)
    requires |prior| == j && st.Valid(|x.p.steps|, j + 1) && st.done == {} && Sound(x, st.items, j)
    ensures Filled(x, st, prior, j)
  {}

  /** State 0: the goal's rules. */
  method FirstState(states: seq<State>, st: State, p: Tables, ghost x: Context)
    requires |states| > 0 && st == states[0] && ContextOk(x) && x.p == p && InRange(p) && |p.nts| > 0
    requires st.Valid(|p.steps|, 1) && st.items == {} == st.done
    modifies st
    ensures Finished(x, states[..1], [st.items]) && ClosedSoFar(x, [st.items])
  {
    hide *;
    GoalRange(p);
    StartersSound(x, {}, 0, 0) by {
      SoundNothing(x);
    }
    AdjoinAll(st, p.starters[0], 0, |p.steps|, 1);
    ghost var first := st.items;
    assert first == {} + Starts(p.starters[0], 0);
    FilledStart(x, st, [], 0);
    NoneFinished(x, states[..0]);
    Forw(states, st, 0, p, x, []);
    FilledParts(x, st, [], 0);
    StateFinished(x, [], st.items, 0) by {
      ScannedNone(x, st.items);
    }
    FinishedExtended(x, states, [], 0);
    FirstClosed(x, st.items);
    assert [] + [st.items] == [st.items];
  }

  lemma GoalRange(p: Tables)
    requires InRange(p) && |p.nts| > 0
    ensures |p.starters| == |p.nts| && forall c :: c in p.starters[0] ==> 0 <= c < |p.steps|
  {}

  lemma SoundNothing(x: Context)
    ensures forall j :: Sound(x, {}, j)
  {}

  lemma NoneFinished(x: Context, before: seq<State>)
    requires before == []
    ensures Finished(x, before, [])
  {}

  lemma ScannedNone(x: Context, items: set<Item>)
    ensures Scanned(x.p, x.toks, items, 0)
  {}

  lemma FirstClosed(x: Context, items: set<Item>)
    requires |x.p.starters| > 0 && Starts(x.p.starters[0], 0) <= items && StateClosed(x.p, x.toks, [] + [items], 0)
    ensures ClosedSoFar(x, [items])
  {
    assert [] + [items] == [items];
    forall c | c in x.p.starters[0]
      ensures (c, 0) in items
    {
      StartIn(x.p.starters[0], 0, (c, 0));
    }
  }

  /** The state after token `i`. */
  method NextState(states: seq<State>, st: State, i: nat, l: seq<int>, p: Tables, ghost x: Context, ghost prior: Chart)
    requires i + 1 < |states| && st == states[i + 1] && st !in states[..i + 1] && i < |x.toks|
    requires ContextOk(x) && x.p == p && InRange(p) && Finished(x, states[..i + 1], prior) && |prior| == i + 1
    requires ClosedSoFar(x, prior) && st.Valid(|p.steps|, i + 2) && st.items == {} == st.done
    requires forall c :: c in l ==> 0 <= c < |p.nts| && p.nts[c] in x.toks[i].kinds
    requires forall k :: k in x.toks[i].kinds && k in p.nts ==> exists c :: c in l && p.nts[c] == k
    modifies st
    ensures Finished(x, states[..i + 2], prior + [st.items]) && ClosedSoFar(x, prior + [st.items])
  {
    hide *;
    ghost var before := states[..i + 1];
    ScannedTokens(x, Starts(l, i), l, i);
    AdjoinAll(st, l, i, |p.steps|, i + 2);
    assert st.items == {} + Starts(l, i);
    assert st.items == Starts(l, i);
    FilledStart(x, st, prior, i + 1);
    Forw(states, st, i + 1, p, x, prior);
    FilledParts(x, st, prior, i + 1);
    ScannedTokens(x, st.items, l, i);
    StateFinished(x, prior, st.items, i + 1);
    FinishedExtended(x, states, prior, i + 1);
    ClosedExtended(x, prior, st.items);
  }

  ghost predicate Apart(states: seq<State>) {
    forall i, j :: 0 <= i < j < |states| ==> states[i] != states[j]
  }

  /** The states from number `from` on are untouched. */
  ghost predicate BlankFrom(later: seq<State>, from: nat, nb: nat)
    reads later
  {
    forall k :: 0 <= k < |later| ==> later[k].Valid(nb, from + k + 1) && later[k].items == {} == later[k].done
  }

  lemma StateApart(states: seq<State>, i: nat)
    requires Apart(states) && i < |states|
    ensures states[i] !in states[..i] && states[i] !in states[i + 1..]
  {}

  /** `make-parser`'s result, up to the chart of the whole input: closed, and all of it true. */
  method FillChart(p: Tables, toks: seq<Token>, ghost g: Grammar, ghost dots: seq<Dot>)
    returns (states: seq<State>, ghost chart: Chart)
    requires Compiled(g, p, dots) && |p.nts| > 0
    ensures |states| == |toks| + 1 && Apart(states) && forall i :: 0 <= i < |states| ==> fresh(states[i])
    ensures Finished(Context(g, toks, p, dots), states, chart) && ChartClosed(p, toks, chart)
  {
    hide *;
    ghost var x := Context(g, toks, p, dots);
    ContextIntro(x);
    var n := |toks|;
    states := MakeStates(n, |p.steps|);
    BlankIntro(states, |p.steps|);
    BlankNext(states, 0, |p.steps|);
    StateApart(states, 0);
    FirstState(states, states[0], p, x);
    chart := [states[0].items];
    var i := 0;
    while i < n
      invariant 0 <= i <= n && |chart| == i + 1 && Finished(x, states[..i + 1], chart) && ClosedSoFar(x, chart)
      invariant BlankFrom(states[i + 1..], i + 1, |p.steps|)
    {
      var l := KindsOf(toks[i], p.nts);
      StateApart(states, i + 1);
      BlankNext(states, i + 1, |p.steps|);
      NextState(states, states[i + 1], i, l, p, x, chart);
      chart := chart + [states[i + 1].items];
      i := i + 1;
    }
    assert states[..n + 1] == states;
    AllClosed(x, chart);
  }

  lemma ContextIntro(x: Context)
    requires Compiled(x.g, x.p, x.dots)
    ensures ContextOk(x) && InRange(x.p)
  {}

  lemma BlankIntro(states: seq<State>, nb: nat)
    requires forall i, j :: 0 <= i < j < |states| ==> states[i] != states[j]
    requires forall i :: 0 <= i < |states| ==> states[i].Valid(nb, i + 1) && states[i].items == {} == states[i].done
    ensures Apart(states) && BlankFrom(states[0..], 0, nb)
  {}

  lemma BlankNext(states: seq<State>, i: nat, nb: nat)
    requires i < |states| && BlankFrom(states[i..], i, nb)
    ensures states[i].Valid(nb, i + 1) && states[i].items == {} == states[i].done
    ensures BlankFrom(states[i + 1..], i + 1, nb)
  {
    var later, rest := states[i..], states[i + 1..];
    assert later[0] == states[i];
    forall k | 0 <= k < |rest|
      ensures rest[k] == later[k + 1]
    {
    }
  }

  lemma AllClosed(x: Context, chart: Chart)
    requires ClosedSoFar(x, chart) && |chart| == |x.toks| + 1
    ensures ChartClosed(x.p, x.toks, chart)
  {}
}
