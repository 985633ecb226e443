/** The second chart: of the items of the first, those that some parse of the whole input uses, marked
    from the goal backwards. */
module EarleyFilter {
  import opened EarleyGrammar
  import opened Options
  import opened EarleyStates
  import opened EarleyParser

  /** `conf_set_adjoin**`: copy an item if the first chart has it. */
  method AdjoinStar(from: State, to: State, conf: int, i: nat, ghost nb: nat, ghost size: nat) returns (there: bool)
    requires from.Valid(nb, size) && to.Valid(nb, size) && from != to && NoEmptySet(to)
    modifies to
    ensures NoEmptySet(to)
    ensures to.Valid(nb, size) && SettledKept(old(to.view), to.view) && to.done == old(to.done)
    ensures there <==> (conf, i) in from.items
    ensures to.items == old(to.items) + if there then {(conf, i)} else {}
  {
    hide *;
    from.ContainsItem(conf, i, nb, size);
    SettledRefl(to.view);
    ghost var keys, items := to.view.Keys, to.items;
    NoEmptyParts(to);
    there := from.Contains(conf, i);
    if there {
      from.ItemInRange(conf, i, nb, size);
      to.Get(conf, nb, size);
      to.ContainsItem(conf, i, nb, size);
      if !to.Contains(conf, i) {
        ghost var view := to.view;
        InViewOf(to, conf, nb, size);
        to.Adjoin(conf, i, nb, size);
        KeptByAdjoin(view, to.view, conf, i);
      }
      NoEmptyMore(keys, items, to, conf, i);
    }
  }

  lemma NoSets(star: seq<State>)
    requires forall i :: 0 <= i < |star| ==> star[i].view == map[]
    ensures forall i :: 0 <= i < |star| ==> NoEmptySet(star[i])
  {}

  lemma NoEmptyParts(st: State)
    requires NoEmptySet(st)
    ensures forall c :: c in st.view.Keys ==> InItems(st.items, c)
  {}

  lemma NoEmptyMore(keys: set<int>, items: set<Item>, st: State, conf: int, i: int)
    requires forall c :: c in keys ==> InItems(items, c)
    requires st.view.Keys == keys + {conf} && items <= st.items && (conf, i) in st.items
    ensures NoEmptySet(st)
  {
    forall c | c in st.view
      ensures InItems(st.items, c)
    {
      if c in keys {
        var l :| (c, l) in items;
        assert (c, l) in st.items;
      }
    }
  }

  lemma InViewOf(st: State, conf: int, nb: nat, size: nat)
    requires st.Valid(nb, size) && conf in st.sets
    ensures conf in st.view
  {}

  lemma KeptByAdjoin(before: map<int, View>, after: map<int, View>, conf: int, i: int)
    requires conf in before && after == before[conf := View(before[conf].settled, before[conf].waiting + [i])]
    ensures forall view :: SettledKept(view, before) ==> SettledKept(view, after)
  {}

  /** Every set of the state has a position in it. */
  ghost predicate NoEmptySet(st: State)
    reads st
  {
    forall c :: c in st.view ==> InItems(st.items, c)
  }

  ghost predicate InItems(items: set<Item>, c: int) {
    exists i :: (c, i) in items
  }

  /** The second chart while the items of state `j` are marked: `m` are its items, all of them in `chart`. */
  ghost predicate Star(nb: nat, star: seq<State>, m: Chart, chart: Chart, j: nat, view: map<int, View>, done: set<Item>)
    reads star
  {
    && |star| == |m| == |chart| && j < |star| && Apart(star)
    && (forall k :: 0 <= k < |star| ==> star[k].Valid(nb, k + 1) && star[k].items == m[k] && m[k] <= chart[k])
    && (forall k :: 0 <= k < j ==> star[k].done == {}) && (forall k :: j < k < |star| ==> star[k].items == star[k].done)
    && SettledKept(view, star[j].view) && star[j].done == done
    && (forall k :: 0 <= k < |star| ==> NoEmptySet(star[k]))
  }

  /** The second chart has grown, at most up to state `j`. */
  ghost predicate Grown(m: Chart, m': Chart, j: nat) {
    && |m| == |m'| && (forall k :: 0 <= k < |m| ==> m[k] <= m'[k])
    && (forall k :: j < k < |m| ==> m[k] == m'[k])
  }

  /** The two charts do not share a state. */
  ghost predicate TwoCharts(states: seq<State>, star: seq<State>) {
    |states| == |star| && forall k, l :: 0 <= k < |states| && 0 <= l < |star| ==> states[k] != star[l]
  }

  method MarkAt(states: seq<State>, star: seq<State>, k: nat, conf: int, i: nat, j: nat, ghost x: Context, ghost chart: Chart, ghost most: Chart,
                ghost m: Chart, ghost view: map<int, View>, ghost done: set<Item>)
    returns (there: bool, ghost m': Chart)
    requires Finished(x, states, chart) && TwoCharts(states, star) && k <= j
    requires Star(|x.p.steps|, star, m, most, j, view, done)
    requires |chart| == |most| && k < |chart| && ((conf, i) in chart[k] ==> (conf, i) in most[k])
    modifies star[k]
    ensures Star(|x.p.steps|, star, m', most, j, view, done) && Grown(m, m', j)
    ensures (there <==> (conf, i) in chart[k]) && (there ==> (conf, i) in m'[k])
  {
    hide *;
    ghost var nb := |x.p.steps|;
    MarkReady(states, star, k, j, x, chart, most, m, view, done);
    StarParts(nb, star, m, most, j, view, done);
    ghost var before := star[j].view;
    there := AdjoinStar(states[k], star[k], conf, i, nb, k + 1);
    SettledRefl(before);
    SettledTrans(view, before, star[j].view);
    m' := m[k := star[k].items];
    GrownMark(m, k, j, star[k].items);
    StarIntro(nb, star, m', most, j, view, done);
  }

  lemma MarkReady(states: seq<State>, star: seq<State>, k: nat, j: nat, x: Context, chart: Chart, most: Chart, m: Chart,
                  view: map<int, View>, done: set<Item>)
    requires Finished(x, states, chart) && TwoCharts(states, star) && k <= j
    requires Star(|x.p.steps|, star, m, most, j, view, done)
    ensures k < |states| == |star| == |chart| && states[k].Valid(|x.p.steps|, k + 1) && states[k].items == chart[k]
    ensures states[k] != star[k]
  {}

  lemma StarParts(nb: nat, star: seq<State>, m: Chart, chart: Chart, j: nat, view: map<int, View>, done: set<Item>)
    requires Star(nb, star, m, chart, j, view, done)
    ensures |star| == |m| == |chart| && j < |star| && Apart(star) && SettledKept(view, star[j].view) && star[j].done == done
    ensures forall k :: 0 <= k < |star| ==> star[k].Valid(nb, k + 1) && star[k].items == m[k] && m[k] <= chart[k]
    ensures forall k :: 0 <= k < j ==> star[k].done == {}
    ensures forall k :: j < k < |star| ==> star[k].items == star[k].done
    ensures forall k, l :: 0 <= k < l < |star| ==> star[k] != star[l]
    ensures forall k :: 0 <= k < |star| ==> NoEmptySet(star[k])
  {}

  lemma StarIntro(nb: nat, star: seq<State>, m: Chart, chart: Chart, j: nat, view: map<int, View>, done: set<Item>)
    requires |star| == |m| == |chart| && j < |star| && Apart(star) && SettledKept(view, star[j].view) && star[j].done == done
    requires forall k :: 0 <= k < |star| ==> star[k].Valid(nb, k + 1) && star[k].items == m[k] && m[k] <= chart[k]
    requires forall k :: 0 <= k < j ==> star[k].done == {}
    requires forall k :: j < k < |star| ==> star[k].items == star[k].done
    requires forall k :: 0 <= k < |star| ==> NoEmptySet(star[k])
    ensures Star(nb, star, m, chart, j, view, done)
  {}

  lemma GrownMark(m: Chart, k: nat, j: nat, items: set<Item>)
    requires k <= j && k < |m| && m[k] <= items
    ensures Grown(m, m[k := items], j)
  {}

  /** One way to split an item: its predecessor up to `k` and the ender from there. */
  ghost predicate SplitKept(chart: Chart, m: Chart, prev: int, ender: int, i: int, k: int, j: int)
    requires |chart| == |m| && 0 <= k < |m| && 0 <= j < |m|
  {
    i <= k && (prev, i) in chart[k] && (ender, k) in chart[j] ==> (prev, i) in m[k] && (ender, k) in m[j]
  }

  /** Every way to split the item at `ender` is kept. */
  ghost predicate EnderKept(chart: Chart, m: Chart, prev: int, ender: int, i: int, j: int)
    requires |chart| == |m| && 0 <= j < |m|
  {
    forall k :: 0 <= k <= j ==> SplitKept(chart, m, prev, ender, i, k, j)
  }

  /** The item's every way to be split at its last symbol is kept. */
  ghost predicate ItemKept(p: Tables, chart: Chart, m: Chart, c: int, i: int, j: int)
    requires |chart| == |m| && 0 <= j < |m|
  {
    |p.nts| <= c < |p.steps| && 0 < c && 0 <= p.steps[c - 1] < |p.enders| ==>
      EndersKept(chart, m, c - 1, p.enders[p.steps[c - 1]], i, j)
  }

  ghost predicate EndersKept(chart: Chart, m: Chart, prev: int, l: seq<int>, i: int, j: int)
    requires |chart| == |m| && 0 <= j < |m|
  {
    forall e :: e in l ==> EnderKept(chart, m, prev, e, i, j)
  }

  ghost predicate BackClosed(p: Tables, chart: Chart, m: Chart, done: set<Item>, j: int)
    requires |chart| == |m| && 0 <= j < |m|
  {
    forall x :: x in done ==> ItemKept(p, chart, m, x.0, x.1, j)
  }

  lemma GrownTrans(m: Chart, m1: Chart, m2: Chart, j: nat)
    requires Grown(m, m1, j) && Grown(m1, m2, j)
    ensures Grown(m, m2, j)
  {}

  lemma GrownRefl(m: Chart, j: nat)
    ensures Grown(m, m, j)
  {}

  ghost predicate Larger(m: Chart, m': Chart) {
    |m| == |m'| && forall k :: 0 <= k < |m| ==> m[k] <= m'[k]
  }

  lemma EnderKeptMore(chart: Chart, m: Chart, m': Chart, prev: int, ender: int, i: int, j: nat)
    requires |chart| == |m| && j < |m| && Larger(m, m') && EnderKept(chart, m, prev, ender, i, j)
    ensures EnderKept(chart, m', prev, ender, i, j)
  {
    forall k | 0 <= k <= j
      ensures SplitKept(chart, m', prev, ender, i, k, j)
    {
      assert SplitKept(chart, m, prev, ender, i, k, j);
    }
  }

  lemma EndersKeptMore(chart: Chart, m: Chart, m': Chart, prev: int, l: seq<int>, i: int, j: nat)
    requires |chart| == |m| && j < |m| && Larger(m, m') && EndersKept(chart, m, prev, l, i, j)
    ensures EndersKept(chart, m', prev, l, i, j)
  {
    forall e | e in l
      ensures EnderKept(chart, m', prev, e, i, j)
    {
      EnderKeptMore(chart, m, m', prev, e, i, j);
    }
  }

  lemma BackClosedMore(p: Tables, chart: Chart, m: Chart, m': Chart, done: set<Item>, j: nat)
    requires |chart| == |m| && j < |m| && Larger(m, m') && BackClosed(p, chart, m, done, j)
    ensures BackClosed(p, chart, m', done, j)
  {
    forall x | x in done
      ensures ItemKept(p, chart, m', x.0, x.1, j)
    {
      assert ItemKept(p, chart, m, x.0, x.1, j);
      if |p.nts| <= x.0 < |p.steps| && 0 < x.0 && 0 <= p.steps[x.0 - 1] < |p.enders| {
        EndersKeptMore(chart, m, m', x.0 - 1, p.enders[p.steps[x.0 - 1]], x.1, j);
      }
    }
  }

  lemma StatesApart(states: seq<State>, star: seq<State>, k: nat)
    requires TwoCharts(states, star) && k < |star|
    ensures star[k] !in states
  {}

  /** The body of the innermost loop: both halves of one split. */
  method MarkSplit(states: seq<State>, star: seq<State>, prev: int, ender: int, i: nat, k: nat, j: nat, ghost x: Context,
                   ghost chart: Chart, ghost most: Chart, ghost m: Chart, ghost view: map<int, View>, ghost done: set<Item>)
    returns (ghost m': Chart)
    requires Finished(x, states, chart) && TwoCharts(states, star) && k <= j
    requires Star(|x.p.steps|, star, m, most, j, view, done)
    requires |chart| == |most| && j < |chart| && SplitKept(chart, most, prev, ender, i, k, j) && (ender, k) in chart[j]
    modifies star[k], star[j]
    ensures Star(|x.p.steps|, star, m', most, j, view, done) && Grown(m, m', j)
    ensures |m'| == |chart| && SplitKept(chart, m', prev, ender, i, k, j)
  {
    hide *;
    StarSizes(|x.p.steps|, star, m, most, j, view, done);
    StatesApart(states, star, k);
    StatesApart(states, star, j);
    m' := m;
    GrownRefl(m, j);
    if k >= i {
      SplitParts(chart, most, prev, ender, i, k, j);
      var there;
      there, m' := MarkAt(states, star, k, prev, i, j, x, chart, most, m, view, done);
      if there {
        ghost var m1 := m';
        StarSizes(|x.p.steps|, star, m1, most, j, view, done);
        there, m' := MarkAt(states, star, j, ender, k, j, x, chart, most, m1, view, done);
        GrownTrans(m, m1, m', j);
        GrownAt(m1, m', k, j);
      }
    }
    GrownAt(m, m', k, j);
    SplitIntro(chart, m', prev, ender, i, k, j);
  }

  lemma StarSizes(nb: nat, star: seq<State>, m: Chart, chart: Chart, j: nat, view: map<int, View>, done: set<Item>)
    requires Star(nb, star, m, chart, j, view, done)
    ensures |star| == |m| == |chart| && j < |star|
  {}

  lemma GrownAt(m: Chart, m': Chart, k: nat, j: nat)
    requires Grown(m, m', j) && k < |m|
    ensures |m| == |m'| && m[k] <= m'[k]
  {}

  lemma SplitIntro(chart: Chart, m: Chart, prev: int, ender: int, i: int, k: int, j: int)
    requires |chart| == |m| && 0 <= k < |m| && 0 <= j < |m|
    requires i <= k && (prev, i) in chart[k] && (ender, k) in chart[j] ==> (prev, i) in m[k] && (ender, k) in m[j]
    ensures SplitKept(chart, m, prev, ender, i, k, j)
  {}

  lemma SplitParts(chart: Chart, m: Chart, prev: int, ender: int, i: int, k: int, j: int)
    requires |chart| == |m| && 0 <= k < |m| && 0 <= j < |m| && SplitKept(chart, m, prev, ender, i, k, j)
    requires i <= k && (ender, k) in chart[j]
    ensures (prev, i) in chart[k] ==> (prev, i) in m[k] && (ender, k) in m[j]
  {}

  lemma GrownLarger(m: Chart, m': Chart, j: nat)
    requires Grown(m, m', j)
    ensures Larger(m, m')
  {}

  /** The splits at the settled positions of `ender` seen so far. */
  ghost predicate SplitsKept(chart: Chart, m: Chart, prev: int, ender: int, i: int, s: seq<int>, j: int)
    requires |chart| == |m| && 0 <= j < |m|
  {
    forall t :: 0 <= t < |s| ==> 0 <= s[t] <= j && SplitKept(chart, m, prev, ender, i, s[t], j)
  }

  lemma SplitsKeptStep(chart: Chart, m: Chart, m': Chart, prev: int, ender: int, i: int, s: seq<int>, k: int, j: nat)
    requires |chart| == |m| && j < |m| && Larger(m, m') && SplitsKept(chart, m, prev, ender, i, s, j)
    requires 0 <= k <= j && SplitKept(chart, m', prev, ender, i, k, j)
    ensures SplitsKept(chart, m', prev, ender, i, s + [k], j)
  {
    var s' := s + [k];
    forall t | 0 <= t < |s'|
      ensures 0 <= s'[t] <= j && SplitKept(chart, m', prev, ender, i, s'[t], j)
    {
      if t < |s| {
        assert SplitKept(chart, m, prev, ender, i, s[t], j);
      }
    }
  }

  lemma SplitsKeptNone(chart: Chart, m: Chart, prev: int, ender: int, i: int, s: seq<int>, j: int)
    requires |chart| == |m| && 0 <= j < |m| && s == []
    ensures SplitsKept(chart, m, prev, ender, i, s, j)
  {}

  lemma EnderKeptIntro(chart: Chart, m: Chart, prev: int, ender: int, i: int, s: seq<int>, j: int)
    requires |chart| == |m| && 0 <= j < |m| && SplitsKept(chart, m, prev, ender, i, s, j)
    requires forall k :: (ender, k) in chart[j] ==> k in s
    ensures EnderKept(chart, m, prev, ender, i, j)
  {
    forall k | 0 <= k <= j
      ensures SplitKept(chart, m, prev, ender, i, k, j)
    {
      if (ender, k) in chart[j] {
        var t :| 0 <= t < |s| && s[t] == k;
        assert SplitKept(chart, m, prev, ender, i, s[t], j);
      }
    }
  }

  lemma EnderKeptAt(chart: Chart, m: Chart, prev: int, ender: int, i: int, k: int, j: int)
    requires |chart| == |m| && 0 <= j < |m| && EnderKept(chart, m, prev, ender, i, j) && 0 <= k <= j
    ensures SplitKept(chart, m, prev, ender, i, k, j)
  {}

  /** What the first chart holds for one ender of state `j`. */
  lemma EnderSet(x: Context, states: seq<State>, chart: Chart, j: nat, ender: int)
    requires Finished(x, states, chart) && j < |states|
    ensures ender in states[j].sets <==> ender in states[j].view
    ensures ender !in states[j].sets ==> forall k :: (ender, k) !in chart[j]
    ensures ender in states[j].sets ==>
      && IsConfSet(states[j].sets[ender], states[j].view[ender], j + 1)
      && forall k :: (ender, k) in chart[j] <==> k in states[j].view[ender].settled
  {
    states[j].SetAt(ender, |x.p.steps|, j + 1);
    states[j].PairsOf(ender, |x.p.steps|, j + 1);
    forall k | (ender, k) in chart[j]
      ensures ender in states[j].view && k in states[j].view[ender].settled
    {
      assert (ender, k) in states[j].done && (ender, k).0 == ender;
      PairIn(ender, states[j].view[ender].settled, (ender, k));
    }
    if ender in states[j].view {
      forall k | k in states[j].view[ender].settled
        ensures (ender, k) in chart[j]
      {
        PairIn(ender, states[j].view[ender].settled, (ender, k));
        assert (ender, k).1 == k;
      }
    }
  }

  /** The loop over the positions of one ender. */
  method MarkEnder(states: seq<State>, star: seq<State>, prev: int, ender: int, i: nat, j: nat, ghost x: Context,
                   ghost chart: Chart, ghost most: Chart, ghost m: Chart, ghost view: map<int, View>, ghost done: set<Item>)
    returns (ghost m': Chart)
    requires Finished(x, states, chart) && TwoCharts(states, star)
    requires Star(|x.p.steps|, star, m, most, j, view, done)
    requires |chart| == |most| && j < |chart| && EnderKept(chart, most, prev, ender, i, j)
    modifies star[..j + 1]
    ensures Star(|x.p.steps|, star, m', most, j, view, done) && Grown(m, m', j)
    ensures |m'| == |chart| && EnderKept(chart, m', prev, ender, i, j)
  {
    hide *;
    StarSizes(|x.p.steps|, star, m, most, j, view, done);
    ChartsSize(states, star);
    EnderSet(x, states, chart, j, ender);
    m' := m;
    GrownRefl(m, j);
    if ender !in states[j].sets {
      SplitsKeptNone(chart, m, prev, ender, i, [], j);
      EnderKeptIntro(chart, m, prev, ender, i, [], j);
      return;
    }
    ghost var s, t := states[j].view[ender].settled, 0;
    var set_ := states[j].sets[ender];
    ghost var sv := states[j].view[ender];
    SettledHead(set_, sv, j + 1);
    SplitsKeptNone(chart, m, prev, ender, i, s[..0], j);
    var k := set_[2];
    while k >= 0
      invariant 0 <= t <= |s| && k == PositionAt(s, t) && Finished(x, states, chart)
      invariant Star(|x.p.steps|, star, m', most, j, view, done) && Grown(m, m', j) && |m'| == |chart|
      invariant SplitsKept(chart, m', prev, ender, i, s[..t], j)
      decreases |s| - t
    {
      PositionInList(set_, sv, j + 1, t);
      StatesApart(states, star, k);
      StatesApart(states, star, j);
      ghost var m1 := m';
      EnderKeptAt(chart, most, prev, ender, i, k, j);
      m' := MarkSplit(states, star, prev, ender, i, k, j, x, chart, most, m1, view, done);
      GrownLarger(m1, m', j);
      GrownTrans(m, m1, m', j);
      SplitsKeptStep(chart, m1, m', prev, ender, i, s[..t], k, j);
      assert s[..t + 1] == s[..t] + [k];
      k := set_[k + 5];
      t := t + 1;
    }
    PositionsEnd(set_, sv, j + 1, t);
    assert s[..t] == s;
    EnderKeptIntro(chart, m', prev, ender, i, s, j);
  }

  lemma ChartsSize(states: seq<State>, star: seq<State>)
    requires TwoCharts(states, star)
    ensures |states| == |star|
  {}

  lemma PositionInList(c: ConfSet, v: View, size: nat, t: nat)
    requires IsConfSet(c, v, size) && PositionAt(v.settled, t) >= 0
    ensures t < |v.settled| && PositionAt(v.settled, t) == v.settled[t] && 0 <= v.settled[t] < size
    ensures v.settled[t] + 5 in c && c[v.settled[t] + 5] == PositionAt(v.settled, t + 1)
  {
    SettledLink(c, v, size, t);
  }

  lemma PositionsEnd(c: ConfSet, v: View, size: nat, t: nat)
    requires IsConfSet(c, v, size) && PositionAt(v.settled, t) < 0 && t <= |v.settled|
    ensures t == |v.settled|
  {
    if t < |v.settled| {
      SettledLink(c, v, size, t);
    }
  }

  /** One item of state `j`: the loop over the enders of its last symbol. */
  method MarkItem(states: seq<State>, star: seq<State>, conf: int, i: nat, j: nat, p: Tables, ghost x: Context,
                  ghost chart: Chart, ghost most: Chart, ghost m: Chart, ghost view: map<int, View>, ghost done: set<Item>)
    returns (ghost m': Chart)
    requires Finished(x, states, chart) && TwoCharts(states, star) && x.p == p && InRange(p) && |p.nts| > 0 && 0 <= conf < |p.steps|
    requires Star(|p.steps|, star, m, most, j, view, done)
    requires |chart| == |most| && j < |chart| && ItemKept(p, chart, most, conf, i, j)
    modifies star[..j + 1]
    ensures Star(|p.steps|, star, m', most, j, view, done) && Grown(m, m', j)
    ensures |m'| == |chart| && ItemKept(p, chart, m', conf, i, j)
  {
    hide *;
    StarSizes(|p.steps|, star, m, most, j, view, done);
    NonterminalsFirst(p);
    m' := m;
    GrownRefl(m, j);
    var prev := conf - 1;
    if conf >= |p.nts| && p.steps[prev] >= 0 {
      RangeOfStep(p, prev);
      var l := p.enders[p.steps[prev]];
      ghost var all, t := l, 0;
      ItemKeptParts(p, chart, most, conf, i, j);
      EndersKeptNone(chart, m, prev, all[..0], i, j);
      while l != []
        invariant 0 <= t <= |all| && l == all[t..] && Finished(x, states, chart)
        invariant Star(|p.steps|, star, m', most, j, view, done) && Grown(m, m', j) && |m'| == |chart|
        invariant EndersKept(chart, m', prev, all[..t], i, j)
        decreases |l|
      {
        ghost var m1 := m';
        assert l[0] == all[t];
        EndersKeptAt(chart, most, prev, all, t, i, j);
        StatesApartAll(states, star, j);
        m' := MarkEnder(states, star, prev, l[0], i, j, x, chart, most, m1, view, done);
        GrownLarger(m1, m', j);
        GrownTrans(m, m1, m', j);
        EndersKeptStep(chart, m1, m', prev, all[..t], l[0], i, j);
        assert all[..t + 1] == all[..t] + [l[0]];
        l := l[1..];
        t := t + 1;
      }
      assert all[..t] == all;
      ItemKeptIntro(p, chart, m', conf, i, j);
    } else {
      ItemKeptNone(p, chart, m', conf, i, j);
    }
  }

  lemma ItemKeptParts(p: Tables, chart: Chart, m: Chart, c: int, i: int, j: int)
    requires |chart| == |m| && 0 <= j < |m| && ItemKept(p, chart, m, c, i, j)
    ensures |p.nts| <= c < |p.steps| && 0 < c && 0 <= p.steps[c - 1] < |p.enders| ==>
              EndersKept(chart, m, c - 1, p.enders[p.steps[c - 1]], i, j)
  {}

  lemma EndersKeptAt(chart: Chart, m: Chart, prev: int, l: seq<int>, t: nat, i: int, j: int)
    requires |chart| == |m| && 0 <= j < |m| && EndersKept(chart, m, prev, l, i, j) && t < |l|
    ensures EnderKept(chart, m, prev, l[t], i, j)
  {}

  lemma NonterminalsFirst(p: Tables)
    requires InRange(p)
    ensures |p.nts| <= |p.steps|
  {}

  lemma StatesApartAll(states: seq<State>, star: seq<State>, j: nat)
    requires TwoCharts(states, star) && j < |star|
    ensures forall k :: 0 <= k < |states| ==> states[k] !in star[..j + 1]
  {}

  lemma EndersKeptNone(chart: Chart, m: Chart, prev: int, l: seq<int>, i: int, j: int)
    requires |chart| == |m| && 0 <= j < |m| && l == []
    ensures EndersKept(chart, m, prev, l, i, j)
  {}

  lemma EndersKeptStep(chart: Chart, m: Chart, m': Chart, prev: int, l: seq<int>, e: int, i: int, j: nat)
    requires |chart| == |m| && j < |m| && Larger(m, m') && EndersKept(chart, m, prev, l, i, j)
    requires EnderKept(chart, m', prev, e, i, j)
    ensures EndersKept(chart, m', prev, l + [e], i, j)
  {
    EndersKeptMore(chart, m, m', prev, l, i, j);
  }

  lemma ItemKeptIntro(p: Tables, chart: Chart, m: Chart, c: int, i: int, j: int)
    requires |chart| == |m| && 0 <= j < |m| && 0 < c <= |p.steps| && 0 <= p.steps[c - 1] < |p.enders|
    requires EndersKept(chart, m, c - 1, p.enders[p.steps[c - 1]], i, j)
    ensures ItemKept(p, chart, m, c, i, j)
  {}

  lemma ItemKeptNone(p: Tables, chart: Chart, m: Chart, c: int, i: int, j: int)
    requires |chart| == |m| && 0 <= j < |m|
    requires |p.nts| > 0 && !(|p.nts| <= c < |p.steps| && p.steps[c - 1] >= 0)
    ensures ItemKept(p, chart, m, c, i, j)
  {}

  /** One round on state `j` of the second chart: take a configuration, keep the ways of its new items. */
  method FilterRound(states: seq<State>, star: seq<State>, j: nat, p: Tables, ghost x: Context,
                     ghost chart: Chart, ghost most: Chart, ghost m: Chart, ghost done: set<Item>)
    returns (ghost m': Chart)
    requires Finished(x, states, chart) && TwoCharts(states, star) && x.p == p && InRange(p) && |p.nts| > 0
    requires j < |star| && Star(|p.steps|, star, m, most, j, star[j].view, done) && star[j].work >= 0
    requires |m| == |chart| && BackClosed(p, chart, m, done, j)
    requires Filtered(p, chart, most)
    modifies star[..j + 1]
    ensures |m'| == |chart| && Star(|p.steps|, star, m', most, j, star[j].view, star[j].done) && Grown(m, m', j)
    ensures BackClosed(p, chart, m', star[j].done, j)
    ensures Box(|p.steps|, j + 1) - star[j].done < Box(|p.steps|, j + 1) - done
  {
    hide *;
    ghost var nb, view0 := |p.steps|, star[j].view;
    StarAt(nb, star, m, most, j, view0, done);
    var conf, head;
    ghost var at;
    StatesApart(states, star, j);
    conf, head, at := TakeFrom(star, j, nb, m, most, done);
    ghost var view, done1, s := star[j].view, star[j].done, star[j].view[conf].settled;
    var i := head;
    ghost var t := at;
    m' := m;
    GrownRefl(m, j);
    PositionsKeptNone(p, chart, m, conf, s[at..t], j);
    while i >= 0
      invariant at <= t <= |s| && i == PositionAt(s, t) && Finished(x, states, chart)
      invariant Star(nb, star, m', most, j, view, done1) && Grown(m, m', j) && |m'| == |chart|
      invariant PositionsKept(p, chart, m', conf, s[at..t], j)
      decreases |s| - t
    {
      ghost var m1 := m';
      StarPosition(nb, star, m1, most, j, view, done1, conf, t);
      RoundItem(nb, star, m1, p, chart, most, j, view, done1, conf, t);
      StatesApartAll(states, star, j);
      m' := MarkItem(states, star, conf, i, j, p, x, chart, most, m1, view, done1);
      GrownLarger(m1, m', j);
      GrownTrans(m, m1, m', j);
      PositionsKeptStep(p, chart, m1, m', conf, s[at..t], i, j);
      assert s[at..t + 1] == s[at..t] + [i];
      StarPosition(nb, star, m', most, j, view, done1, conf, t);
      i := star[j].sets[conf][i + 5];
      t := t + 1;
    }
    StarPositionEnd(nb, star, m', most, j, view, done1, conf, t);
    assert s[at..t] == s[at..];
    GrownLarger(m, m', j);
    BackClosedRound(p, chart, m, m', done, conf, s[at..], j);
    StarAt(nb, star, m', most, j, view, done1);
    StarHere(nb, star, m', most, j, view, done1);
  }

  /** What is taken from the state is in the larger chart, whose splits are kept. */
  lemma RoundItem(nb: nat, star: seq<State>, m: Chart, p: Tables, chart: Chart, most: Chart, j: nat, view: map<int, View>,
                  done: set<Item>, conf: int, t: nat)
    requires Star(nb, star, m, most, j, view, done) && Filtered(p, chart, most) && conf in view && t < |view[conf].settled|
    ensures |chart| == |most| && j < |most| && ItemKept(p, chart, most, conf, view[conf].settled[t], j)
  {
    var i := view[conf].settled[t];
    star[j].SetAt(conf, nb, j + 1);
    star[j].PairsOf(conf, nb, j + 1);
    PairIn(conf, star[j].view[conf].settled, (conf, i));
    assert star[j].view[conf].settled[t] == i;
    assert (conf, i) in star[j].done;
    star[j].DoneIn(nb, j + 1);
    assert (conf, i) in most[j];
    assert BackClosed(p, chart, most, most[j], j);
    assert (conf, i).0 == conf && (conf, i).1 == i;
  }

  lemma StarAt(nb: nat, star: seq<State>, m: Chart, chart: Chart, j: nat, view: map<int, View>, done: set<Item>)
    requires Star(nb, star, m, chart, j, view, done)
    ensures |star| == |m| == |chart| && j < |star| && star[j].Valid(nb, j + 1) && star[j].done == done
    ensures SettledKept(view, star[j].view)
  {}

  lemma StarHere(nb: nat, star: seq<State>, m: Chart, chart: Chart, j: nat, view: map<int, View>, done: set<Item>)
    requires Star(nb, star, m, chart, j, view, done)
    ensures j < |star| && Star(nb, star, m, chart, j, star[j].view, star[j].done)
  {}

  /** The first lines of a round, seen in the whole second chart. */
  method TakeFrom(star: seq<State>, j: nat, ghost nb: nat, ghost m: Chart, ghost most: Chart, ghost done: set<Item>)
    returns (conf: int, head: int, ghost at: nat)
    requires j < |star| && Star(nb, star, m, most, j, star[j].view, done) && star[j].work >= 0
    modifies star[j]
    ensures Star(nb, star, m, most, j, star[j].view, star[j].done) && 0 <= conf < nb && conf in star[j].view
    ensures at <= |star[j].view[conf].settled| && head == PositionAt(star[j].view[conf].settled, at)
    ensures star[j].done == done + Pairs(conf, star[j].view[conf].settled[at..])
    ensures Box(nb, j + 1) - star[j].done < Box(nb, j + 1) - done
  {
    hide Pairs;
    hide Box;
    hide SetsOk;
    hide IsStack;
    hide ViewsItems;
    hide StackHoldsWaiting;
    conf, head, at := Take(star[j], nb, j + 1);
  }

  lemma StarPosition(nb: nat, star: seq<State>, m: Chart, chart: Chart, j: nat, view: map<int, View>, done: set<Item>,
                     conf: int, t: nat)
    requires Star(nb, star, m, chart, j, view, done) && conf in view && PositionAt(view[conf].settled, t) >= 0
    ensures t < |view[conf].settled| && PositionAt(view[conf].settled, t) == view[conf].settled[t]
    ensures j < |star| && conf in star[j].sets && view[conf].settled[t] + 5 in star[j].sets[conf]
    ensures star[j].sets[conf][view[conf].settled[t] + 5] == PositionAt(view[conf].settled, t + 1)
    ensures 0 <= view[conf].settled[t] <= j && 0 <= conf < nb
  {
    star[j].SetAt(conf, nb, j + 1);
    PositionInList(star[j].sets[conf], star[j].view[conf], j + 1, t);
  }

  lemma StarPositionEnd(nb: nat, star: seq<State>, m: Chart, chart: Chart, j: nat, view: map<int, View>, done: set<Item>,
                        conf: int, t: nat)
    requires Star(nb, star, m, chart, j, view, done) && conf in view && t <= |view[conf].settled|
    requires PositionAt(view[conf].settled, t) < 0
    ensures t == |view[conf].settled|
  {
    star[j].SetAt(conf, nb, j + 1);
    PositionsEnd(star[j].sets[conf], star[j].view[conf], j + 1, t);
  }

  ghost predicate PositionsKept(p: Tables, chart: Chart, m: Chart, conf: int, s: seq<int>, j: int)
    requires |chart| == |m| && 0 <= j < |m|
  {
    forall i :: i in s ==> ItemKept(p, chart, m, conf, i, j)
  }

  lemma PositionsKeptNone(p: Tables, chart: Chart, m: Chart, conf: int, s: seq<int>, j: int)
    requires |chart| == |m| && 0 <= j < |m| && s == []
    ensures PositionsKept(p, chart, m, conf, s, j)
  {}

  lemma ItemKeptMore(p: Tables, chart: Chart, m: Chart, m': Chart, c: int, i: int, j: nat)
    requires |chart| == |m| && j < |m| && Larger(m, m') && ItemKept(p, chart, m, c, i, j)
    ensures ItemKept(p, chart, m', c, i, j)
  {
    if |p.nts| <= c < |p.steps| && 0 < c && 0 <= p.steps[c - 1] < |p.enders| {
      EndersKeptMore(chart, m, m', c - 1, p.enders[p.steps[c - 1]], i, j);
    }
  }

  lemma PositionsKeptStep(p: Tables, chart: Chart, m: Chart, m': Chart, conf: int, s: seq<int>, i: int, j: nat)
    requires |chart| == |m| && j < |m| && Larger(m, m') && PositionsKept(p, chart, m, conf, s, j)
    requires ItemKept(p, chart, m', conf, i, j)
    ensures PositionsKept(p, chart, m', conf, s + [i], j)
  {
    forall q | q in s + [i]
      ensures ItemKept(p, chart, m', conf, q, j)
    {
      if q in s {
        ItemKeptMore(p, chart, m, m', conf, q, j);
      }
    }
  }

  lemma BackClosedRound(p: Tables, chart: Chart, m: Chart, m': Chart, done: set<Item>, conf: int, s: seq<int>, j: nat)
    requires |chart| == |m| && j < |m| && Larger(m, m') && BackClosed(p, chart, m, done, j)
    requires PositionsKept(p, chart, m', conf, s, j)
    ensures BackClosed(p, chart, m', done + Pairs(conf, s), j)
  {
    BackClosedMore(p, chart, m, m', done, j);
    forall x | x in Pairs(conf, s)
      ensures ItemKept(p, chart, m', x.0, x.1, j)
    {
      PairIn(conf, s, x);
    }
  }

  /** State `j` of the second chart, until nothing waits. */
  method FilterState(states: seq<State>, star: seq<State>, j: nat, p: Tables, ghost x: Context,
                     ghost chart: Chart, ghost most: Chart, ghost m: Chart)
    returns (ghost m': Chart)
    requires Finished(x, states, chart) && TwoCharts(states, star) && x.p == p && InRange(p) && |p.nts| > 0
    requires j < |star| && Star(|p.steps|, star, m, most, j, star[j].view, {})
    requires Filtered(p, chart, most)
    modifies star[..j + 1]
    ensures Star(|p.steps|, star, m', most, j, star[j].view, star[j].done) && Grown(m, m', j)
    ensures |m'| == |chart| && BackClosed(p, chart, m', m'[j], j) && star[j].items == star[j].done
  {
    hide *;
    ghost var nb := |p.steps|;
    StarAt(nb, star, m, most, j, star[j].view, {});
    StarHere(nb, star, m, most, j, star[j].view, {});
    m' := m;
    GrownRefl(m, j);
    MostSize(p, chart, most);
    BackClosedNone(p, chart, m, star[j].done, j);
    while star[j].work >= 0
      invariant Star(nb, star, m', most, j, star[j].view, star[j].done) && Grown(m, m', j) && |m'| == |chart|
      invariant BackClosed(p, chart, m', star[j].done, j) && Finished(x, states, chart)
      decreases Box(nb, j + 1) - star[j].done
    {
      ghost var m1 := m';
      StatesApartAll(states, star, j);
      m' := FilterRound(states, star, j, p, x, chart, most, m1, star[j].done);
      GrownTrans(m, m1, m', j);
    }
    StarAt(nb, star, m', most, j, star[j].view, star[j].done);
    star[j].NothingWaits(nb, j + 1);
    StarItems(nb, star, m', most, j, star[j].view, star[j].done, j);
  }

  lemma StarItems(nb: nat, star: seq<State>, m: Chart, chart: Chart, j: nat, view: map<int, View>, done: set<Item>, k: nat)
    requires Star(nb, star, m, chart, j, view, done) && k < |star|
    ensures |m| == |star| == |chart| && star[k].items == m[k] && star[k].Valid(nb, k + 1) && m[k] <= chart[k]
  {}

  lemma BackClosedNone(p: Tables, chart: Chart, m: Chart, done: set<Item>, j: int)
    requires |chart| == |m| && 0 <= j < |m| && done == {}
    ensures BackClosed(p, chart, m, done, j)
  {}

  /** The goal's enders over the whole input are marked. */
  ghost predicate GoalKept(p: Tables, chart: Chart, m: Chart) {
    |p.enders| > 0 && 0 < |chart| == |m|
    && forall e :: e in p.enders[0] && (e, 0) in chart[|chart| - 1] ==> (e, 0) in m[|m| - 1]
  }

  /** The second chart holds items of the first, the goal's, and every way to split an item it holds. */
  ghost predicate Filtered(p: Tables, chart: Chart, m: Chart) {
    && GoalKept(p, chart, m)
    && forall k :: 0 <= k < |m| ==> m[k] <= chart[k] && BackClosed(p, chart, m, m[k], k)
  }

  ghost predicate ClosedAbove(p: Tables, chart: Chart, m: Chart, j: int)
    requires |chart| == |m|
  {
    forall k :: 0 <= k < |m| && j < k ==> BackClosed(p, chart, m, m[k], k)
  }

  lemma ClosedAboveStep(p: Tables, chart: Chart, m: Chart, m': Chart, j: nat)
    requires |chart| == |m| && j < |m| && ClosedAbove(p, chart, m, j) && Grown(m, m', j)
    requires BackClosed(p, chart, m', m'[j], j)
    ensures ClosedAbove(p, chart, m', j - 1)
  {
    forall k | 0 <= k < |m| && j < k
      ensures BackClosed(p, chart, m', m'[k], k)
    {
      BackClosedMore(p, chart, m, m', m[k], k);
    }
  }

  lemma GoalKeptMore(p: Tables, chart: Chart, m: Chart, m': Chart, j: nat)
    requires GoalKept(p, chart, m) && Grown(m, m', j)
    ensures GoalKept(p, chart, m')
  {}

  lemma StarNext(nb: nat, star: seq<State>, m: Chart, chart: Chart, j: nat, view: map<int, View>, done: set<Item>)
    requires Star(nb, star, m, chart, j, view, done) && j > 0 && star[j].items == star[j].done
    ensures j - 1 < |star| && Star(nb, star, m, chart, j - 1, star[j - 1].view, {})
  {}

  /** The marking of the goal's enders. */
  method MarkGoal(states: seq<State>, star: seq<State>, n: nat, p: Tables, ghost x: Context, ghost chart: Chart, ghost most: Chart, ghost m: Chart)
    returns (ghost m': Chart)
    requires Finished(x, states, chart) && TwoCharts(states, star) && x.p == p && InRange(p) && |p.nts| > 0
    requires n + 1 == |star| && Star(|p.steps|, star, m, most, n, star[n].view, {})
    requires Filtered(p, chart, most)
    modifies star[n]
    ensures Star(|p.steps|, star, m', most, n, star[n].view, {}) && GoalKept(p, chart, m')
  {
    hide *;
    ghost var nb, view := |p.steps|, star[n].view;
    StarSizes(nb, star, m, most, n, view, {});
    EndersExist(p);
    GoalBound(p, chart, most, n);
    StatesApart(states, star, n);
    m' := m;
    var l := p.enders[0];
    ghost var all, t := l, 0;
    while l != []
      invariant 0 <= t <= |all| && l == all[t..] && Finished(x, states, chart) && |m'| == |chart|
      invariant Star(nb, star, m', most, n, view, {})
      invariant forall q :: 0 <= q < t && (all[q], 0) in chart[n] ==> (all[q], 0) in m'[n]
      decreases |l|
    {
      ghost var m1 := m';
      assert l[0] == all[t] && l[0] in all;
      var there;
      there, m' := MarkAt(states, star, n, l[0], 0, n, x, chart, most, m1, view, {});
      GrownAt(m1, m', n, n);
      l := l[1..];
      t := t + 1;
    }
    GoalKeptIntro(p, chart, m', n);
    StarHere(nb, star, m', most, n, view, {});
    StarAt(nb, star, m', most, n, view, {});
  }

  lemma GoalBound(p: Tables, chart: Chart, most: Chart, n: nat)
    requires Filtered(p, chart, most) && |most| == n + 1 && |p.enders| > 0
    ensures |chart| == |most| && forall e :: e in p.enders[0] && (e, 0) in chart[n] ==> (e, 0) in most[n]
  {}

  lemma EndersExist(p: Tables)
    requires InRange(p) && |p.nts| > 0
    ensures |p.enders| > 0
  {}

  lemma GoalKeptIntro(p: Tables, chart: Chart, m: Chart, n: nat)
    requires |p.enders| > 0 && |chart| == |m| == n + 1
    requires forall u :: 0 <= u < |p.enders[0]| && (p.enders[0][u], 0) in chart[n] ==> (p.enders[0][u], 0) in m[n]
    ensures GoalKept(p, chart, m)
  {}

  /** The states hold these items, and nothing waits. */
  ghost predicate Holds(nb: nat, star: seq<State>, m: Chart)
    reads star
  {
    && |star| == |m|
    && forall k :: 0 <= k < |star| ==> star[k].Valid(nb, k + 1) && star[k].items == star[k].done == m[k] && NoEmptySet(star[k])
  }

  /** The second chart of the whole input.  It is the least that is `Filtered`: it lies in whichever chart `most` is. */
  method Filter(states: seq<State>, p: Tables, ghost x: Context, ghost chart: Chart, ghost most: Chart)
    returns (star: seq<State>, ghost m: Chart)
    requires Finished(x, states, chart) && x.p == p && InRange(p) && |p.nts| > 0 && |states| > 0 && Filtered(p, chart, most)
    ensures |most| == |m| && forall k :: 0 <= k < |m| ==> m[k] <= most[k]
    ensures Holds(|p.steps|, star, m) && Filtered(p, chart, m) && |star| == |states|
  {
    hide *;
    ghost var nb := |p.steps|;
    var n := |states| - 1;
    star := MakeStates(n, nb);
    FinishedSize(x, states, chart);
    MostSize(p, chart, most);
    m := seq(n + 1, k => {});
    NoSets(star);
    StarBlank(nb, star, m, most, n);
    TwoChartsIntro(states, star);
    assert forall k :: 0 <= k < |star| ==> fresh(star[k]);
    m := MarkGoal(states, star, n, p, x, chart, most, m);
    ghost var view, done := star[n].view, star[n].done;
    var i := n;
    StarSizes(nb, star, m, most, n, view, {});
    ClosedAboveNone(p, chart, m, n);
    while i >= 0
      invariant -1 <= i <= n && |m| == |chart| && Finished(x, states, chart)
      invariant i >= 0 ==> Star(nb, star, m, most, i, star[i].view, {})
      invariant i < 0 ==> Star(nb, star, m, most, 0, star[0].view, star[0].done) && star[0].items == star[0].done
      invariant GoalKept(p, chart, m) && ClosedAbove(p, chart, m, i)
    {
      ghost var m1 := m;
      StatesApartAll(states, star, i);
      m := FilterState(states, star, i, p, x, chart, most, m1);
      ClosedAboveStep(p, chart, m1, m, i);
      GoalKeptMore(p, chart, m1, m, i);
      if i > 0 {
        StarNext(nb, star, m, most, i, star[i].view, star[i].done);
      }
      i := i - 1;
    }
    FilteredIntro(nb, star, m, chart, most, p, star[0].view, star[0].done);
  }

  lemma FinishedSize(x: Context, states: seq<State>, chart: Chart)
    requires Finished(x, states, chart)
    ensures |states| == |chart|
  {}

  lemma StarBlank(nb: nat, star: seq<State>, m: Chart, chart: Chart, n: nat)
    requires |star| == |m| == |chart| == n + 1 && forall i, j :: 0 <= i < j < |star| ==> star[i] != star[j]
    requires forall i :: 0 <= i < |star| ==> star[i].Valid(nb, i + 1) && star[i].items == {} == star[i].done
    requires forall i :: 0 <= i < |star| ==> NoEmptySet(star[i])
    requires forall k :: 0 <= k < |m| ==> m[k] == {}
    ensures Star(nb, star, m, chart, n, star[n].view, {})
  {}

  lemma TwoChartsIntro(states: seq<State>, star: seq<State>)
    requires |states| == |star| && forall k, l :: 0 <= k < |states| && 0 <= l < |star| ==> states[k] != star[l]
    ensures TwoCharts(states, star)
  {}

  lemma ClosedAboveNone(p: Tables, chart: Chart, m: Chart, n: nat)
    requires |chart| == |m| == n + 1
    ensures ClosedAbove(p, chart, m, n)
  {}

  lemma MostSize(p: Tables, chart: Chart, most: Chart)
    requires Filtered(p, chart, most)
    ensures |chart| == |most|
  {}

  lemma FilteredIntro(nb: nat, star: seq<State>, m: Chart, chart: Chart, most: Chart, p: Tables, view: map<int, View>, done: set<Item>)
    requires Filtered(p, chart, most) && Star(nb, star, m, most, 0, view, done) && GoalKept(p, chart, m) && ClosedAbove(p, chart, m, -1)
    requires star[0].items == star[0].done
    ensures Holds(nb, star, m) && Filtered(p, chart, m) && |m| == |most| && forall k :: 0 <= k < |m| ==> m[k] <= most[k]
  {}

  /** Some ender of `nt` spans `i..j`. */
  ghost predicate Spans(p: Tables, m: Chart, nt: Symbol, i: int, j: int)
    requires 0 <= j < |m| && |p.enders| == |p.nts|
  {
    exists x, e :: 0 <= x < |p.nts| && p.nts[x] == nt && e in p.enders[x] && (e, i) in m[j]
  }

  /** `is_parsed`: is the nonterminal completed over the span?  For a span that ends before it begins the program reads
      past the end of a vector: it answers whether the nonterminal is completed at `j` from anywhere.  A state that does
      not exist cannot be read: the answer is then none, an error.  A name that the grammar does not use is not completed. */
  method IsParsed(nt: Symbol, i: nat, j: nat, p: Tables, star: seq<State>, ghost m: Chart) returns (parsed: Option<bool>)
    requires InRange(p) && Holds(|p.steps|, star, m)
    requires forall x, y :: 0 <= x < y < |p.nts| ==> p.nts[x] != p.nts[y]
    ensures |m| == |star|
    ensures parsed.None? <==> j >= |m| && HasEnder(p, nt)
    ensures j < |m| && i <= j ==> (parsed.value <==> Spans(p, m, nt, i, j))
    ensures j < |m| && i > j ==> (parsed.value <==> exists k :: 0 <= k <= j && Spans(p, m, nt, k, j))
    ensures j >= |m| && !HasEnder(p, nt) ==> !parsed.value
  {
    var at := Ind(nt, p.nts);
    if at < 0 {
      return Some(false);
    }
    var l := p.enders[at];
    ghost var t := 0;
    while l != []
      invariant 0 <= t <= |p.enders[at]| && l == p.enders[at][t..] && (j >= |star| ==> t == 0)
      invariant j < |star| ==> forall q :: 0 <= q < t ==> !ReadsAs(m, p.enders[at][q], i, j)
      decreases |l|
    {
      if j >= |star| {
        assert p.enders[at] != [];
        return None;
      }
      ReadsItem(|p.steps|, star, m, l[0], i, j);
      assert l[0] == p.enders[at][t] && l[0] in p.enders[at];
      if star[j].Reads(l[0], i, j + 1) {
        AnswersYes(p, m, nt, i, j, at, l[0]);
        return Some(true);
      }
      l := l[1..];
      t := t + 1;
    }
    parsed := Some(false);
    if j < |star| {
      AnswersNo(p, m, nt, i, j, at);
    }
  }

  ghost predicate HasEnder(p: Tables, nt: Symbol)
    requires |p.enders| == |p.nts|
  {
    exists x :: 0 <= x < |p.nts| && p.nts[x] == nt && p.enders[x] != []
  }

  /** An item of the state, from this position or, past the state's own number, from any. */
  ghost predicate ReadsAs(m: Chart, e: int, i: int, j: int)
    requires 0 <= j < |m|
  {
    if i <= j then (e, i) in m[j] else exists k :: 0 <= k <= j && (e, k) in m[j]
  }

  lemma ReadsItem(nb: nat, star: seq<State>, m: Chart, e: int, i: nat, j: nat)
    requires Holds(nb, star, m) && j < |star|
    ensures star[j].Reads(e, i, j + 1) <==> ReadsAs(m, e, i, j)
  {
    star[j].ContainsItem(e, i, nb, j + 1);
    star[j].SetAt(e, nb, j + 1);
    if i > j {
      if e in star[j].view {
        var k :| (e, k) in star[j].items;
        star[j].ItemInRange(e, k, nb, j + 1);
      }
      if k :| 0 <= k <= j && (e, k) in m[j] {
        star[j].ContainsItem(e, k, nb, j + 1);
      }
    }
  }

  lemma AnswersYes(p: Tables, m: Chart, nt: Symbol, i: nat, j: nat, at: nat, e: int)
    requires j < |m| && |p.enders| == |p.nts| && at < |p.nts| && p.nts[at] == nt && e in p.enders[at] && ReadsAs(m, e, i, j)
    ensures i <= j ==> Spans(p, m, nt, i, j)
    ensures i > j ==> exists k :: 0 <= k <= j && Spans(p, m, nt, k, j)
  {
    if i > j {
      var k :| 0 <= k <= j && (e, k) in m[j];
      assert Spans(p, m, nt, k, j);
    }
  }

  lemma AnswersNo(p: Tables, m: Chart, nt: Symbol, i: nat, j: nat, at: nat)
    requires j < |m| && |p.enders| == |p.nts| && at < |p.nts| && p.nts[at] == nt
    requires forall x, y :: 0 <= x < y < |p.nts| ==> p.nts[x] != p.nts[y]
    requires forall q :: 0 <= q < |p.enders[at]| ==> !ReadsAs(m, p.enders[at][q], i, j)
    ensures i <= j ==> !Spans(p, m, nt, i, j)
    ensures i > j ==> forall k :: 0 <= k <= j ==> !Spans(p, m, nt, k, j)
  {
    forall e, k | e in p.enders[at] && 0 <= k <= j && (i > j || k == i)
      ensures (e, k) !in m[j]
    {
      var q :| 0 <= q < |p.enders[at]| && p.enders[at][q] == e;
      assert !ReadsAs(m, p.enders[at][q], i, j);
    }
  }

  /** The verdict on the goal is the same in both charts, and only true items are left. */
  lemma FilterDecides(x: Context, chart: Chart, m: Chart)
    requires ContextOk(x) && ChartClosed(x.p, x.toks, chart) && Filtered(x.p, chart, m)
    requires forall j :: 0 <= j < |chart| ==> Sound(x, chart[j], j)
    ensures |x.p.nts| > 0 && |x.p.enders| == |x.p.nts| && |m| == |x.toks| + 1
    ensures Spans(x.p, m, x.p.nts[0], 0, |x.toks|) <==> Derivable(x.g, x.toks, x.p.nts[0], 0, |x.toks|)
  {
    ChartDecides(x.g, x.toks, x.p, x.dots, chart);
    var n := |x.toks|;
    if Spans(x.p, m, x.p.nts[0], 0, n) {
      var y, e :| 0 <= y < |x.p.nts| && x.p.nts[y] == x.p.nts[0] && e in x.p.enders[y] && (e, 0) in m[n];
      assert y == 0;
      assert (e, 0) in chart[n];
    }
    if GoalReached(x.p, x.toks, chart) {
      var e :| e in x.p.enders[0] && (e, 0) in chart[n];
      assert (e, 0) in m[n];
    }
  }

  /** Whatever nonterminal and span the second chart reports, the nonterminal derives it. */
  lemma SpansSound(x: Context, chart: Chart, m: Chart, nt: Symbol, i: int, j: int)
    requires ContextOk(x) && Filtered(x.p, chart, m) && 0 <= j < |m| && |x.p.enders| == |x.p.nts|
    requires Sound(x, chart[j], j) && Spans(x.p, m, nt, i, j)
    ensures 0 <= i <= j && Derivable(x.g, x.toks, nt, i, j)
  {
    var y, e :| 0 <= y < |x.p.nts| && x.p.nts[y] == nt && e in x.p.enders[y] && (e, i) in m[j];
    assert (e, i) in chart[j] && (e, i).0 == e;
    assert ListsOk(x.p, x.dots, y);
    EnderDerives(x.g, x.toks, x.p, x.dots, e, i, j);
  }

  /** The parser's answer on the goal nonterminal: parse, then ask `parse->parsed?` about the whole input. */
  method ParsesGoal(p: Tables, toks: seq<Token>, ghost g: Grammar, ghost dots: seq<Dot>) returns (parsed: bool)
    requires Compiled(g, p, dots) && |p.nts| > 0
    ensures parsed <==> Derivable(g, toks, p.nts[0], 0, |toks|)
  {
    hide *;
    ghost var x := Context(g, toks, p, dots);
    var states;
    ghost var chart;
    states, chart := FillChart(p, toks, g, dots);
    ContextIntro(x);
    var star;
    ghost var m;
    EndersExist(p);
    FinishedSize(x, states, chart);
    ChartFiltered(p, chart);
    star, m := Filter(states, p, x, chart, chart);
    NamesDiffer(x);
    FinishedSound(x, states, chart);
    FilterDecides(x, chart, m);
    var answer := IsParsed(p.nts[0], 0, |toks|, p, star, m);
    parsed := answer.value;
  }

  /** The first chart itself keeps everything. */
  lemma ChartFiltered(p: Tables, chart: Chart)
    requires |p.enders| > 0 && |chart| > 0
    ensures Filtered(p, chart, chart)
  {
    forall k, x | 0 <= k < |chart| && x in chart[k]
      ensures ItemKept(p, chart, chart, x.0, x.1, k)
    {}
  }

  lemma NamesDiffer(x: Context)
    requires ContextOk(x)
    ensures forall i, j :: 0 <= i < j < |x.p.nts| ==> x.p.nts[i] != x.p.nts[j]
  {}

  lemma FinishedSound(x: Context, states: seq<State>, chart: Chart)
    requires Finished(x, states, chart)
    ensures forall j :: 0 <= j < |chart| ==> Sound(x, chart[j], j)
  {}
}
