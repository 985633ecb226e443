/** The states of the chart.  A configuration set is a vector whose cells thread two linked lists of
    token positions through each other: the settled ones and the ones that still wait to be processed.
    A state threads the configurations with waiting positions on a work stack. */
module EarleyStates {
  import opened EarleyGrammar

  /** The cells of a configuration set; an absent key is the value `false`.  Cell 0 links the work
      stack, cells 1 and 2 are the settled tail and head, 3 and 4 the waiting tail and head, and cell
      5 + i links position i. */
  type ConfSet = map<int, int>

  datatype View = View(settled: seq<int>, waiting: seq<int>)

  ghost function FirstOf(s: seq<int>, none: int): int {
    if s == [] then none else s[0]
  }

  ghost function LastOf(s: seq<int>, none: int): int {
    if s == [] then none else s[|s| - 1]
  }

  ghost predicate Linked(c: ConfSet, s: seq<int>) {
    forall t :: 0 <= t < |s| ==> s[t] + 5 in c && c[s[t] + 5] == if t + 1 < |s| then s[t + 1] else -1
  }

  ghost predicate Distinct(s: seq<int>) {
    forall t, u :: 0 <= t < u < |s| ==> s[t] != s[u]
  }

  ghost predicate Ends(c: ConfSet, v: View) {
    && 1 in c && 2 in c && 3 in c && 4 in c
    && c[1] == LastOf(v.settled, -3) && c[2] == FirstOf(v.settled, -1)
    && c[3] == LastOf(v.waiting, -1) && c[4] == FirstOf(v.waiting, -1)
  }

  ghost predicate Separate(v: View) {
    Distinct(v.settled) && Distinct(v.waiting) && forall i :: i in v.settled ==> i !in v.waiting
  }

  /** The positions present are those of the two lists. */
  ghost predicate Present(c: ConfSet, v: View, size: nat) {
    && (forall i :: i in v.settled ==> 0 <= i < size) && (forall i :: i in v.waiting ==> 0 <= i < size)
    && (forall i :: i >= 0 && i + 5 in c ==> i in v.settled || i in v.waiting)
  }

  ghost predicate IsConfSet(c: ConfSet, v: View, size: nat) {
    Ends(c, v) && Linked(c, v.settled) && Linked(c, v.waiting) && Separate(v) && Present(c, v, size)
  }

  ghost function Merged(c: ConfSet): ConfSet
    requires 1 in c && 3 in c && 4 in c
  {
    c[c[1] + 5 := c[4]][1 := c[3]][3 := -1][4 := -1]
  }

  lemma MergedEnds(c: ConfSet, v: View, size: nat)
    requires Ends(c, v) && Present(c, v, size) && v.waiting != []
    ensures Ends(Merged(c), View(v.settled + v.waiting, [])) && Present(Merged(c), View(v.settled + v.waiting, []), size)
  {
    if v.settled != [] {
      assert v.settled[|v.settled| - 1] in v.settled;
    }
    assert v.waiting[|v.waiting| - 1] in v.waiting && v.waiting[0] in v.waiting;
    assert forall i :: i in v.settled + v.waiting <==> i in v.settled || i in v.waiting;
  }

  lemma MergedLinked(c: ConfSet, v: View, size: nat)
    requires IsConfSet(c, v, size) && v.waiting != []
    ensures Linked(Merged(c), v.settled + v.waiting)
  {
    var s, c' := v.settled + v.waiting, Merged(c);
    forall t | 0 <= t < |s|
      ensures s[t] + 5 in c' && c'[s[t] + 5] == if t + 1 < |s| then s[t + 1] else -1
    {
      if t < |v.settled| {
        assert s[t] == v.settled[t] && s[t] in v.settled;
        if t + 1 < |v.settled| {
          assert v.settled[t] != v.settled[|v.settled| - 1];
        }
      } else {
        var u := t - |v.settled|;
        assert s[t] == v.waiting[u] && s[t] in v.waiting;
        if v.settled != [] {
          assert v.settled[|v.settled| - 1] in v.settled;
        }
      }
    }
    assert Linked(c', s);
  }

  lemma MergedSeparate(v: View)
    requires Separate(v)
    ensures Separate(View(v.settled + v.waiting, []))
  {
    var s := v.settled + v.waiting;
    forall t, u | 0 <= t < u < |s|
      ensures s[t] != s[u]
    {
      if t < |v.settled| <= u {
        assert s[t] in v.settled && s[u] == v.waiting[u - |v.settled|] && s[u] in v.waiting;
      }
    }
  }

  /** `conf_set_merge_new_bang`: the waiting list goes to the end of the settled one.  For an empty
      settled list the tail -3 makes the first write land on the head. */
  lemma MergedOk(c: ConfSet, v: View, size: nat)
    requires IsConfSet(c, v, size) && v.waiting != []
    ensures IsConfSet(Merged(c), View(v.settled + v.waiting, []), size)
  {
    MergedEnds(c, v, size);
    MergedLinked(c, v, size);
    MergedSeparate(v);
  }

  ghost function Adjoined(c: ConfSet, i: int): ConfSet
    requires 3 in c
  {
    c[i + 5 := -1][c[3] + 5 := i][3 := i]
  }

  lemma AdjoinedEnds(c: ConfSet, v: View, size: nat, i: int)
    requires Ends(c, v) && Present(c, v, size) && 0 <= i < size
    ensures Ends(Adjoined(c, i), View(v.settled, v.waiting + [i]))
    ensures Present(Adjoined(c, i), View(v.settled, v.waiting + [i]), size)
  {
    if v.waiting != [] {
      assert v.waiting[|v.waiting| - 1] in v.waiting;
    }
    assert forall q :: q in v.waiting + [i] <==> q in v.waiting || q == i;
  }

  lemma AdjoinedLinked(c: ConfSet, v: View, size: nat, i: int)
    requires IsConfSet(c, v, size) && 0 <= i && i + 5 !in c
    ensures i !in v.settled && i !in v.waiting
    ensures Linked(Adjoined(c, i), v.settled) && Linked(Adjoined(c, i), v.waiting + [i])
  {
    var s, c' := v.waiting + [i], Adjoined(c, i);
    NotPresent(c, v, i);
    if v.waiting != [] {
      assert v.waiting[|v.waiting| - 1] in v.waiting;
    }
    forall t | 0 <= t < |s|
      ensures s[t] + 5 in c' && c'[s[t] + 5] == if t + 1 < |s| then s[t + 1] else -1
    {
      if t < |v.waiting| {
        assert s[t] == v.waiting[t] && s[t] in v.waiting;
        if t + 1 < |v.waiting| {
          assert v.waiting[t] != v.waiting[|v.waiting| - 1];
        }
      }
    }
    forall t | 0 <= t < |v.settled|
      ensures v.settled[t] + 5 in c' && c'[v.settled[t] + 5] == c[v.settled[t] + 5]
    {
      assert v.settled[t] in v.settled;
    }
  }

  lemma NotPresent(c: ConfSet, v: View, i: int)
    requires Linked(c, v.settled) && Linked(c, v.waiting) && i + 5 !in c
    ensures i !in v.settled && i !in v.waiting
  {
    LinkedPresent(c, v.settled, i);
    LinkedPresent(c, v.waiting, i);
  }

  lemma LinkedPresent(c: ConfSet, s: seq<int>, i: int)
    requires Linked(c, s)
    ensures i in s ==> i + 5 in c
  {
    if i in s {
      var t :| 0 <= t < |s| && s[t] == i;
      assert s[t] + 5 in c;
    }
  }

  lemma AdjoinedSeparate(v: View, i: int)
    requires Separate(v) && i !in v.settled && i !in v.waiting
    ensures Separate(View(v.settled, v.waiting + [i]))
  {}

  /** `conf_set_adjoin`: a position goes to the end of the waiting list. */
  lemma AdjoinedOk(c: ConfSet, v: View, size: nat, i: int)
    requires IsConfSet(c, v, size) && 0 <= i < size && i + 5 !in c
    ensures IsConfSet(Adjoined(c, i), View(v.settled, v.waiting + [i]), size) && i !in v.settled && i !in v.waiting
  {
    AdjoinedLinked(c, v, size, i);
    AdjoinedEnds(c, v, size, i);
    AdjoinedSeparate(v, i);
  }

  /** The work stack: each configuration on it links the next in its cell 0. */
  ghost predicate IsStack(work: int, sets: map<int, ConfSet>, stack: seq<int>) {
    && work == FirstOf(stack, -1) && Distinct(stack)
    && forall t :: 0 <= t < |stack| ==> StackCell(sets, stack, t)
  }

  ghost predicate StackCell(sets: map<int, ConfSet>, stack: seq<int>, t: int)
    requires 0 <= t < |stack|
  {
    && stack[t] >= 0 && stack[t] in sets && 0 in sets[stack[t]]
    && sets[stack[t]][0] == (if t + 1 < |stack| then stack[t + 1] else -1)
  }

  ghost predicate SetsOk(sets: map<int, ConfSet>, view: map<int, View>, nb: nat, size: nat) {
    && view.Keys == sets.Keys
    && forall c :: c in sets ==> 0 <= c < nb && IsConfSet(sets[c], view[c], size)
  }

  ghost predicate StackHoldsWaiting(view: map<int, View>, stack: seq<int>) {
    forall c :: c in view ==> (c in stack <==> view[c].waiting != [])
  }

  ghost predicate ViewsItems(view: map<int, View>, items: set<Item>, done: set<Item>) {
    && (forall x: Item :: x in items <==> x.0 in view && (x.1 in view[x.0].settled || x.1 in view[x.0].waiting))
    && (forall x: Item :: x in done <==> x.0 in view && x.1 in view[x.0].settled)
  }

  ghost function Pairs(conf: int, s: seq<int>): set<Item> {
    set t | 0 <= t < |s| :: (conf, s[t])
  }

  lemma CellZero(c: ConfSet, v: View, size: nat, next: int)
    requires IsConfSet(c, v, size)
    ensures IsConfSet(c[0 := next], v, size)
  {
    LinkedElsewhere(c, v.settled, next);
    LinkedElsewhere(c, v.waiting, next);
  }

  lemma LinkedElsewhere(c: ConfSet, s: seq<int>, next: int)
    requires Linked(c, s) && forall i :: i in s ==> i >= 0
    ensures Linked(c[0 := next], s)
  {
    forall t | 0 <= t < |s|
      ensures s[t] >= 0
    {
      assert s[t] in s;
    }
  }

  lemma EndsRange(c: ConfSet, v: View, size: nat)
    requires IsConfSet(c, v, size)
    ensures (c[1] == -3 || c[1] >= 0) && (c[3] == -1 || c[3] >= 0) && (c[3] < 0 <==> v.waiting == [])
    ensures c[4] == FirstOf(v.waiting, -1)
  {
    if v.settled != [] {
      assert v.settled[|v.settled| - 1] in v.settled;
    }
    if v.waiting != [] {
      assert v.waiting[|v.waiting| - 1] in v.waiting;
    }
  }

  lemma EmptyOk(c: ConfSet, size: nat)
    requires c == map[1 := -3, 2 := -1, 3 := -1, 4 := -1]
    ensures IsConfSet(c, View([], []), size)
  {}

  lemma SetReplaced(sets: map<int, ConfSet>, view: map<int, View>, nb: nat, size: nat, conf: int, c: ConfSet, v: View)
    requires SetsOk(sets, view, nb, size) && 0 <= conf < nb && IsConfSet(c, v, size)
    ensures SetsOk(sets[conf := c], view[conf := v], nb, size)
  {
    hide IsConfSet;
  }

  /** A change elsewhere in a configuration set leaves the work stack alone. */
  lemma StackKept(work: int, sets: map<int, ConfSet>, stack: seq<int>, conf: int, c: ConfSet)
    requires IsStack(work, sets, stack) && (conf in sets && 0 in sets[conf] ==> 0 in c && c[0] == sets[conf][0])
    ensures IsStack(work, sets[conf := c], stack)
  {
    var sets' := sets[conf := c];
    forall t | 0 <= t < |stack|
      ensures StackCell(sets', stack, t)
    {
      assert StackCell(sets, stack, t);
    }
  }

  lemma StackPushed(work: int, sets: map<int, ConfSet>, stack: seq<int>, conf: int, c: ConfSet)
    requires IsStack(work, sets, stack) && conf >= 0 && conf !in stack && 0 in c && c[0] == work
    ensures IsStack(conf, sets[conf := c], [conf] + stack)
  {
    var s, sets' := [conf] + stack, sets[conf := c];
    forall t | 0 <= t < |s|
      ensures StackCell(sets', s, t)
    {
      if t > 0 {
        assert StackCell(sets, stack, t - 1);
        assert s[t] == stack[t - 1] && s[t] in stack && s[t] != conf;
        assert t + 1 < |s| ==> s[t + 1] == stack[t];
      } else {
        assert t + 1 < |s| ==> s[t + 1] == stack[0];
      }
    }
    assert Distinct(s);
  }

  lemma StackTop(work: int, sets: map<int, ConfSet>, stack: seq<int>)
    requires IsStack(work, sets, stack) && work >= 0
    ensures stack != [] && work == stack[0] && work in stack && work in sets
  {
    assert StackCell(sets, stack, 0);
  }

  lemma StackEmpty(work: int, sets: map<int, ConfSet>, stack: seq<int>)
    requires IsStack(work, sets, stack)
    ensures work < 0 <==> stack == []
  {
    if stack != [] {
      assert StackCell(sets, stack, 0);
    }
  }

  lemma StackPopped(work: int, sets: map<int, ConfSet>, stack: seq<int>, c: ConfSet)
    requires IsStack(work, sets, stack) && stack != []
    ensures work in sets && 0 in sets[work] && work == stack[0] && work !in stack[1..]
    ensures IsStack(sets[work][0], sets[work := c], stack[1..])
  {
    var s, sets' := stack[1..], sets[work := c];
    assert stack[0] == work && StackCell(sets, stack, 0);
    forall t | 0 <= t < |s|
      ensures StackCell(sets', s, t) && s[t] != work
    {
      assert s[t] == stack[t + 1] && StackCell(sets, stack, t + 1);
      assert t + 1 < |s| ==> s[t + 1] == stack[t + 2];
    }
    assert Distinct(s);
  }

  lemma NotStacked(work: int, sets: map<int, ConfSet>, stack: seq<int>, conf: int)
    requires IsStack(work, sets, stack) && conf !in sets
    ensures conf !in stack
  {
    forall q | q in stack
      ensures q in sets
    {
      var t :| 0 <= t < |stack| && stack[t] == q;
      assert StackCell(sets, stack, t);
    }
  }

  lemma WaitingPopped(view: map<int, View>, stack: seq<int>, conf: int)
    requires StackHoldsWaiting(view, stack) && stack != [] && stack[0] == conf && conf in view && conf !in stack[1..]
    ensures view[conf].waiting != []
    ensures StackHoldsWaiting(view[conf := View(view[conf].settled + view[conf].waiting, [])], stack[1..])
  {
    assert stack == [stack[0]] + stack[1..];
    assert stack[0] in stack;
  }

  lemma WaitingNone(view: map<int, View>, stack: seq<int>)
    requires StackHoldsWaiting(view, stack) && stack == []
    ensures forall c :: c in view ==> view[c].waiting == []
  {
    forall c | c in view
      ensures view[c].waiting == []
    {
      assert c !in stack;
    }
  }

  lemma WaitingAdded(view: map<int, View>, stack: seq<int>, conf: int, v: View)
    requires StackHoldsWaiting(view, stack) && conf in view && v.waiting != []
    ensures StackHoldsWaiting(view[conf := v], if view[conf].waiting == [] then [conf] + stack else stack)
  {}

  lemma PairIn(conf: int, s: seq<int>, x: Item)
    ensures x in Pairs(conf, s) <==> x.0 == conf && x.1 in s
  {
    if x.0 == conf && x.1 in s {
      var t :| 0 <= t < |s| && s[t] == x.1;
      assert x == (conf, s[t]);
    }
  }

  /** The items after a position came to the waiting list of `conf`. */
  lemma ItemAdded(view: map<int, View>, items: set<Item>, done: set<Item>, conf: int, v: View, i: int)
    requires ViewsItems(view, items, done) && (if conf in view then v == view[conf] else v == View([], []))
    ensures ViewsItems(view[conf := View(v.settled, v.waiting + [i])], items + {(conf, i)}, done)
  {
    assert forall q :: q in v.waiting + [i] <==> q in v.waiting || q == i;
  }

  /** The items after the waiting list of `conf` was settled. */
  lemma ItemsSettled(view: map<int, View>, items: set<Item>, done: set<Item>, conf: int)
    requires ViewsItems(view, items, done) && conf in view
    ensures ViewsItems(view[conf := View(view[conf].settled + view[conf].waiting, [])], items, done + Pairs(conf, view[conf].waiting))
  {
    var v := view[conf];
    assert forall q :: q in v.settled + v.waiting <==> q in v.settled || q in v.waiting;
    forall x: Item
      ensures x in Pairs(conf, v.waiting) <==> x.0 == conf && x.1 in v.waiting
    {
      PairIn(conf, v.waiting, x);
    }
    hide Pairs;
  }

  /** Processing adds to the waiting lists only. */
  ghost predicate SettledKept(before: map<int, View>, after: map<int, View>) {
    forall c :: c in before ==> c in after && after[c].settled == before[c].settled
  }

  lemma SettledRefl(view: map<int, View>)
    ensures SettledKept(view, view)
  {}

  lemma SettledTrans(a: map<int, View>, b: map<int, View>, c: map<int, View>)
    requires SettledKept(a, b) && SettledKept(b, c)
    ensures SettledKept(a, c)
  {}

  /** The link that follows position number `t` of the settled list. */
  lemma SettledLink(c: ConfSet, v: View, size: nat, t: nat)
    requires IsConfSet(c, v, size) && t < |v.settled|
    ensures v.settled[t] + 5 in c && 0 <= v.settled[t] < size
    ensures c[v.settled[t] + 5] == PositionAt(v.settled, t + 1)
  {
    assert v.settled[t] in v.settled;
  }

  /** Position number `t` of a list, or -1 at its end. */
  ghost function PositionAt(s: seq<int>, t: nat): int {
    if t < |s| then s[t] else -1
  }

  lemma PositionIs(s: seq<int>, t: nat)
    ensures PositionAt(s, t) == if t < |s| then s[t] else -1
  {}

  lemma SettledHead(c: ConfSet, v: View, size: nat)
    requires IsConfSet(c, v, size)
    ensures 2 in c && c[2] == PositionAt(v.settled, 0)
  {}

  lemma PairsStep(conf: int, s: seq<int>, t: nat)
    requires t < |s|
    ensures Pairs(conf, s[..t + 1]) == Pairs(conf, s[..t]) + {(conf, s[t])}
  {
    assert s[..t + 1] == s[..t] + [s[t]];
    forall x: Item
      ensures x in Pairs(conf, s[..t + 1]) <==> x in Pairs(conf, s[..t]) + {(conf, s[t])}
    {
      PairIn(conf, s[..t + 1], x);
      PairIn(conf, s[..t], x);
    }
  }

  /** What a state's fields mean: the set of its items, and of those already processed. */
  class State {
    var work: int
    var sets: map<int, ConfSet>
    ghost var view: map<int, View>
    ghost var stack: seq<int>
    ghost var items: set<Item>
    ghost var done: set<Item>

    ghost predicate Valid(nb: nat, size: nat)
      reads this
    {
      && SetsOk(sets, view, nb, size) && IsStack(work, sets, stack) && StackHoldsWaiting(view, stack)
      && ViewsItems(view, items, done)
    }

    ghost predicate Blank()
      reads this
    {
      work == -1 && sets == map[] && view == map[] && stack == [] && items == {} && done == {}
    }

    constructor ()
      ensures Blank()
    {
      work, sets := -1, map[];
      view, stack, items, done := map[], [], {}, {};
    }

    /** Is position `i` in configuration `conf`'s set, settled or waiting? */
    predicate Contains(conf: int, i: int)
      reads this
    {
      conf in sets && i + 5 in sets[conf]
    }

    /** What the program reads at position `i`, in a vector that has `size` positions: past its end the value is
        undefined, which is not false. */
    predicate Reads(conf: int, i: int, size: nat)
      reads this
    {
      conf in sets && (i >= size || i + 5 in sets[conf])
    }

    lemma ContainsItem(conf: int, i: int, nb: nat, size: nat)
      requires Valid(nb, size) && i >= 0
      ensures Contains(conf, i) <==> (conf, i) in items
    {
      assert (conf, i).0 == conf && (conf, i).1 == i;
    }

    lemma SetAt(conf: int, nb: nat, size: nat)
      requires Valid(nb, size)
      ensures conf in view <==> conf in sets
      ensures conf in sets ==> IsConfSet(sets[conf], view[conf], size) && 0 <= conf < nb
    {}

    /** With an empty work stack everything is processed. */
    lemma NothingWaits(nb: nat, size: nat)
      requires Valid(nb, size) && work < 0
      ensures items == done
    {
      StackEmpty(work, sets, stack);
      WaitingNone(view, stack);
      forall x: Item | x in items
        ensures x in done
      {
        var c := x.0;
        assert c in view && view[c].waiting == [];
        assert x.1 !in view[c].waiting;
      }
      forall x: Item | x in done
        ensures x in items
      {
      }
    }

    /** What is processed is there. */
    lemma DoneIn(nb: nat, size: nat)
      requires Valid(nb, size)
      ensures done <= items
    {}

    lemma TopInView(nb: nat, size: nat)
      requires Valid(nb, size) && work >= 0
      ensures work in view
    {
      StackTop(work, sets, stack);
    }

    /** The processed items of a configuration are its settled positions. */
    lemma PairsOf(conf: int, nb: nat, size: nat)
      requires Valid(nb, size)
      ensures conf in view ==> Pairs(conf, view[conf].settled) <= done
      ensures forall x :: x in done && x.0 == conf ==> conf in view && x in Pairs(conf, view[conf].settled)
    {
      forall x: Item
        ensures conf in view && x in Pairs(conf, view[conf].settled) <==> x in done && x.0 == conf
      {
        if conf in view {
          PairIn(conf, view[conf].settled, x);
        }
      }
    }

    lemma ItemInRange(conf: int, i: int, nb: nat, size: nat)
      requires Valid(nb, size) && (conf, i) in items
      ensures 0 <= conf < nb && 0 <= i < size
    {
      assert (conf, i).0 == conf && (conf, i).1 == i;
      assert IsConfSet(sets[conf], view[conf], size);
    }

    /** `conf_set_get*` */
    method Get(conf: int, ghost nb: nat, ghost size: nat)
      requires Valid(nb, size) && 0 <= conf < nb
      modifies this
      ensures Valid(nb, size) && conf in sets
      ensures items == old(items) && done == old(done) && stack == old(stack)
      ensures forall c :: c in old(view) ==> c in view && view[c] == old(view)[c]
      ensures SettledKept(old(view), view) && view.Keys == old(view).Keys + {conf}
    {
      if conf !in sets {
        var cs := map[1 := -3, 2 := -1, 3 := -1, 4 := -1];
        EmptyOk(cs, size);
        SetReplaced(sets, view, nb, size, conf, cs, View([], []));
        StackKept(work, sets, stack, conf, cs);
        NotStacked(work, sets, stack, conf);
        hide IsConfSet;
        hide IsStack;
        hide SetsOk;
        sets := sets[conf := cs];
        view := view[conf := View([], [])];
      }
    }

    /** `conf_set_adjoin`, with its push on the work stack */
    method Adjoin(conf: int, i: int, ghost nb: nat, ghost size: nat)
      requires Valid(nb, size) && conf in sets && !Contains(conf, i) && 0 <= i < size
      modifies this
      ensures Valid(nb, size) && conf in sets
      ensures items == old(items) + {(conf, i)} && done == old(done)
      ensures view == old(view)[conf := View(old(view)[conf].settled, old(view)[conf].waiting + [i])]
    {
      ghost var v := view[conf];
      EndsRange(sets[conf], v, size);
      AdjoinedOk(sets[conf], v, size, i);
      ItemAdded(view, items, done, conf, v, i);
      WaitingAdded(view, stack, conf, View(v.settled, v.waiting + [i]));
      var cs := sets[conf];
      var tail := cs[3];
      cs := cs[i + 5 := -1];
      cs := cs[tail + 5 := i];
      cs := cs[3 := i];
      assert cs == Adjoined(sets[conf], i);
      hide IsConfSet;
      hide IsStack;
      hide SetsOk;
      hide ViewsItems;
      hide StackHoldsWaiting;
      hide Pairs;
      if tail < 0 {
        CellZero(cs, View(v.settled, v.waiting + [i]), size, work);
        cs := cs[0 := work];
        StackPushed(work, sets, stack, conf, cs);
        work := conf;
        stack := [conf] + stack;
      } else {
        StackKept(work, sets, stack, conf, cs);
      }
      SetReplaced(sets, view, nb, size, conf, cs, View(v.settled, v.waiting + [i]));
      sets := sets[conf := cs];
      view := view[conf := View(v.settled, v.waiting + [i])];
      items := items + {(conf, i)};
    }

    /** The first lines of a round: take a configuration off the work stack and settle its waiting
        positions, which the links still lead through from `head`. */
    method Pop(ghost nb: nat, ghost size: nat) returns (conf: int, head: int, ghost at: nat)
      requires Valid(nb, size) && work >= 0
      modifies this
      ensures Valid(nb, size) && conf == old(work) && conf in old(view) && 0 <= conf < nb
      ensures var v := old(view)[conf];
              && v.waiting != [] && view == old(view)[conf := View(v.settled + v.waiting, [])]
              && at == |v.settled| && head == v.waiting[0] && done == old(done) + Pairs(conf, v.waiting)
      ensures items == old(items)
    {
      hide *;
      conf := work;
      ValidParts(nb, size);
      PopReady(work, sets, view, stack, items, done, nb, size);
      ghost var v := view[conf];
      var cs := sets[conf];
      MergedIs(cs);
      head, at := cs[4], |v.settled|;
      work := cs[0];
      cs := cs[cs[1] + 5 := cs[4]];
      cs := cs[1 := cs[3]];
      cs := cs[3 := -1];
      cs := cs[4 := -1];
      assert cs == Merged(sets[conf]);
      sets := sets[conf := cs];
      view := view[conf := View(v.settled + v.waiting, [])];
      stack := stack[1..];
      done := done + Pairs(conf, v.waiting);
      ValidIntro(nb, size);
    }

    lemma InViewOf(conf: int, nb: nat, size: nat)
      requires Valid(nb, size) && conf in sets
      ensures conf in view
    {}

    lemma ValidParts(nb: nat, size: nat)
      requires Valid(nb, size)
      ensures SetsOk(sets, view, nb, size) && IsStack(work, sets, stack) && StackHoldsWaiting(view, stack)
      ensures ViewsItems(view, items, done)
    {}

    lemma ValidIntro(nb: nat, size: nat)
      requires SetsOk(sets, view, nb, size) && IsStack(work, sets, stack) && StackHoldsWaiting(view, stack)
      requires ViewsItems(view, items, done)
      ensures Valid(nb, size)
    {}

    /** `conf_set_union`: the settled positions of another configuration set come to `conf`'s. */
    method Union(conf: int, other: ConfSet, ghost ov: View, ghost osize: nat, ghost nb: nat, ghost size: nat)
      requires Valid(nb, size) && conf in sets && IsConfSet(other, ov, osize) && osize <= size
      modifies this
      ensures Valid(nb, size) && SettledKept(old(view), view) && conf in sets
      ensures items == old(items) + Pairs(conf, ov.settled) && done == old(done)
    {
      hide *;
      SettledHead(other, ov, osize);
      SettledRefl(view);
      var i := other[2];
      ghost var t: nat := 0;
      PairsNone(conf, ov.settled[..0]);
      while i >= 0
        invariant t <= |ov.settled| && i == PositionAt(ov.settled, t)
        invariant Valid(nb, size) && conf in sets && SettledKept(old(view), view)
        invariant items == old(items) + Pairs(conf, ov.settled[..t]) && done == old(done)
        decreases |ov.settled| - t
      {
        PositionIs(ov.settled, t);
        SettledLink(other, ov, osize, t);
        PairsStep(conf, ov.settled, t);
        ContainsItem(conf, i, nb, size);
        if !Contains(conf, i) {
          ghost var before := view;
          InViewOf(conf, nb, size);
          Adjoin(conf, i, nb, size);
          SettledByAdjoin(before, view, conf, i);
          SettledTrans(old(view), before, view);
        }
        i := other[i + 5];
        t := t + 1;
      }
      PositionIs(ov.settled, t);
      if t < |ov.settled| {
        SettledLink(other, ov, osize, t);
      }
      assert ov.settled[..t] == ov.settled;
    }
  }

  lemma SettledByAdjoin(before: map<int, View>, after: map<int, View>, conf: int, i: int)
    requires conf in before && after == before[conf := View(before[conf].settled, before[conf].waiting + [i])]
    ensures SettledKept(before, after)
  {}

  lemma MergedIs(c: ConfSet)
    requires 1 in c && 3 in c && 4 in c
    ensures Merged(c) == c[c[1] + 5 := c[4]][1 := c[3]][3 := -1][4 := -1]
  {}

  /** What taking a configuration off the work stack leaves. */
  lemma PopReady(work: int, sets: map<int, ConfSet>, view: map<int, View>, stack: seq<int>, items: set<Item>, done: set<Item>,
                 nb: nat, size: nat)
    requires SetsOk(sets, view, nb, size) && IsStack(work, sets, stack) && StackHoldsWaiting(view, stack)
    requires ViewsItems(view, items, done) && work >= 0
    ensures work in sets && work in view && 0 <= work < nb && stack != []
    ensures var c, v := sets[work], view[work];
      && 0 in c && 1 in c && 3 in c && 4 in c && (c[1] == -3 || c[1] >= 0) && v.waiting != [] && c[4] == v.waiting[0]
      && var view' := view[work := View(v.settled + v.waiting, [])];
      && SetsOk(sets[work := Merged(c)], view', nb, size) && IsStack(c[0], sets[work := Merged(c)], stack[1..])
      && Merged(c)[0 := c[0]] == Merged(c)
      && StackHoldsWaiting(view', stack[1..]) && ViewsItems(view', items, done + Pairs(work, v.waiting))
  {
    StackTop(work, sets, stack);
    StackPopped(work, sets, stack, Merged(sets[work]));
    var v := view[work];
    WaitingPopped(view, stack, work);
    EndsRange(sets[work], v, size);
    MergedOk(sets[work], v, size);
    ItemsSettled(view, items, done, work);
    SetReplaced(sets, view, nb, size, work, Merged(sets[work]), View(v.settled + v.waiting, []));
    hide IsStack;
    hide SetsOk;
    hide ViewsItems;
    hide StackHoldsWaiting;
    hide Pairs;
  }

  lemma PairsNone(conf: int, s: seq<int>)
    requires s == []
    ensures Pairs(conf, s) == {}
  {}
}
