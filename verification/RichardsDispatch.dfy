/** The Richards scheduler for any tasks at all: a list of them by falling priority, and whatever calls of the
    scheduler they make when they are run. */
module RichardsDispatch {
  import opened RichardsPackets
  import opened RichardsModel

  /** The one call of the scheduler with which a task's run ends; `id` is a place in the list, or no task's. */
  datatype Call = SuspendCurrent | HoldCurrent | ReleaseTask(id: int) | QueuePacket(id: int)

  /** The tasks in the order of the list: priorities, state words, lengths of the queues; and the place of the task
      looked at, which is past the end when `schedule` stops. */
  datatype Dispatch = Dispatch(priority: seq<int>, state: seq<Bits>, queued: seq<nat>, cur: nat)

  ghost predicate Shape(d: Dispatch) {
    |d.state| == |d.priority| == |d.queued| && d.cur <= |d.priority|
  }

  /** Each task put before those of lower priority. */
  ghost predicate ByPriority(d: Dispatch) {
    forall i, j :: 0 <= i < j < |d.priority| ==> d.priority[i] > d.priority[j]
  }

  /** The runnable bit says that the queue is not empty. */
  ghost predicate BitsTell(d: Dispatch)
    requires Shape(d)
  {
    forall i :: 0 <= i < |d.state| ==> (d.state[i].runnable <==> d.queued[i] > 0)
  }

  /** The tasks before the one looked at are not ready. */
  ghost predicate NoneBefore(d: Dispatch)
    requires Shape(d)
  {
    forall i :: 0 <= i < d.cur ==> !Ready(d.state[i])
  }

  ghost predicate InOrder(d: Dispatch) {
    Shape(d) && ByPriority(d) && BitsTell(d) && NoneBefore(d)
  }

  ghost function With(d: Dispatch, i: nat, b: Bits, n: nat, cur: nat): Dispatch
    requires Shape(d) && i < |d.state|
  {
    d.(state := d.state[i := b], queued := d.queued[i := n], cur := cur)
  }

  /** `TaskControlBlock.run` before it runs its task. */
  ghost function Taken(d: Dispatch): Dispatch
    requires Shape(d) && d.cur < |d.state| && BitsTell(d)
  {
    if Takes(d.state[d.cur]) then
      With(d, d.cur, Bits(d.queued[d.cur] > 1, false, false), d.queued[d.cur] - 1, d.cur)
    else d
  }

  /** The better of the current task and another. */
  ghost function Higher(d: Dispatch, id: nat): nat
    requires Shape(d) && d.cur < |d.priority| && id < |d.priority|
  {
    if d.priority[id] > d.priority[d.cur] then id else d.cur
  }

  /** What a call of the scheduler does; for a task that does not exist it gives no task to look at next. */
  ghost function Called(d: Dispatch, call: Call): Dispatch
    requires Shape(d) && d.cur < |d.state|
  {
    var i := d.cur;
    match call
    case SuspendCurrent => With(d, i, d.state[i].(suspended := true), d.queued[i], i)
    case HoldCurrent => With(d, i, d.state[i].(held := true), d.queued[i], i + 1)
    case ReleaseTask(id) =>
      if 0 <= id < |d.state| then With(d, id, d.state[id].(held := false), d.queued[id], Higher(d, id))
      else d.(cur := |d.state|)
    case QueuePacket(id) =>
      if !(0 <= id < |d.state|) then d.(cur := |d.state|)
      else if d.queued[id] == 0 then With(d, id, d.state[id].(runnable := true), 1, Higher(d, id))
      else With(d, id, d.state[id], d.queued[id] + 1, i)
  }

  /** One turn of the loop of `schedule`, in which a ready task makes this call. */
  ghost function Turn(d: Dispatch, call: Call): Dispatch
    requires Shape(d) && BitsTell(d) && d.cur < |d.state|
  {
    if Ready(d.state[d.cur]) then Called(Taken(d), call) else d.(cur := d.cur + 1)
  }

  /** The call is for one of `n` tasks. */
  ghost predicate Exists(n: nat, call: Call) {
    match call
    case ReleaseTask(id) => 0 <= id < n
    case QueuePacket(id) => 0 <= id < n
    case _ => true
  }

  lemma CalledInOrder(d: Dispatch, call: Call)
    requires InOrder(d) && d.cur < |d.state| && Exists(|d.state|, call)
    ensures InOrder(Called(d, call))
  {
    var d' := Called(d, call);
    forall i | 0 <= i < d'.cur
      ensures !Ready(d'.state[i])
    {
      if call.HoldCurrent? && i == d.cur {
        assert d'.state[i].held;
      } else {
        assert i < d.cur;
      }
    }
  }

  lemma TakenInOrder(d: Dispatch)
    requires InOrder(d) && d.cur < |d.state|
    ensures InOrder(Taken(d)) && Taken(d).cur == d.cur && |Taken(d).state| == |d.state|
  {}

  lemma TakenKeeps(d: Dispatch)
    requires Shape(d) && BitsTell(d) && d.cur < |d.state|
    ensures Shape(Taken(d)) && BitsTell(Taken(d)) && Taken(d).cur == d.cur && Taken(d).priority == d.priority
  {}

  /** Whatever the call, the lists keep their lengths and the runnable bits tell the queues. */
  lemma TurnKeeps(d: Dispatch, call: Call)
    requires Shape(d) && BitsTell(d) && d.cur < |d.state|
    ensures Shape(Turn(d, call)) && BitsTell(Turn(d, call)) && Turn(d, call).priority == d.priority
  {
    if Ready(d.state[d.cur]) {
      TakenKeeps(d);
    }
  }

  /** The dispatcher after as many turns as there are calls, of which each turn takes one, for the task that it may
      run; or where it stopped before. */
  ghost function AfterCalls(d: Dispatch, calls: seq<Call>): Dispatch
    requires Shape(d) && BitsTell(d)
    ensures Shape(AfterCalls(d, calls)) && BitsTell(AfterCalls(d, calls)) && AfterCalls(d, calls).priority == d.priority
    decreases |calls|
  {
    if calls == [] || d.cur == |d.state| then d
    else
      TurnKeeps(d, calls[0]);
      AfterCalls(Turn(d, calls[0]), calls[1..])
  }

  /** Every call that is made, by a task that is ready, is for a task that exists. */
  ghost predicate MadeExist(d: Dispatch, calls: seq<Call>)
    requires Shape(d) && BitsTell(d)
    decreases |calls|
  {
    calls == [] || d.cur == |d.state| ||
    (TurnKeeps(d, calls[0]);
     (Ready(d.state[d.cur]) ==> Exists(|d.state|, calls[0])) && MadeExist(Turn(d, calls[0]), calls[1..]))
  }

  lemma TurnInOrder(d: Dispatch, call: Call)
    requires InOrder(d) && d.cur < |d.state| && (Ready(d.state[d.cur]) ==> Exists(|d.state|, call))
    ensures InOrder(Turn(d, call))
  {
    if Ready(d.state[d.cur]) {
      TakenInOrder(d);
      CalledInOrder(Taken(d), call);
    }
  }

  /** A turn in which a task runs passes no ready task over if and only if its call is for a task that exists: a call
      for one that does not exist leaves the list with the task itself ready. */
  lemma TurnExactly(d: Dispatch, call: Call)
    requires InOrder(d) && d.cur < |d.state| && Ready(d.state[d.cur])
    ensures Shape(Turn(d, call)) && (Exists(|d.state|, call) <==> NoneBefore(Turn(d, call)))
    ensures !Exists(|d.state|, call) ==> Turn(d, call).cur == |d.state| && Ready(Turn(d, call).state[d.cur])
  {
    TurnKeeps(d, call);
    if Exists(|d.state|, call) {
      TurnInOrder(d, call);
    }
  }

  /** Over whole runs: no ready task has been passed over if and only if every call that was made was for a task that
      exists. */
  lemma {:induction false} DispatchesExactly(d: Dispatch, calls: seq<Call>)
    requires InOrder(d)
    ensures InOrder(AfterCalls(d, calls)) <==> MadeExist(d, calls)
    decreases |calls|
  {
    if calls != [] && d.cur < |d.state| {
      var e := Turn(d, calls[0]);
      TurnKeeps(d, calls[0]);
      if Ready(d.state[d.cur]) && !Exists(|d.state|, calls[0]) {
        TurnExactly(d, calls[0]);
        assert AfterCalls(e, calls[1..]) == e;
      } else {
        TurnInOrder(d, calls[0]);
        DispatchesExactly(e, calls[1..]);
      }
    }
  }

  /** In every state of every such run, whatever the tasks do: a ready task has no higher priority than the one looked
      at, and when the list is at its end none is ready. */
  lemma DispatchesHighest(d: Dispatch, calls: seq<Call>, i: nat)
    requires InOrder(d) && MadeExist(d, calls) && i < |d.priority|
    ensures var e := AfterCalls(d, calls);
      && Shape(e) && e.priority == d.priority
      && (Ready(e.state[i]) ==> e.cur < |e.priority| && e.priority[i] <= e.priority[e.cur])
  {
    DispatchesExactly(d, calls);
    hide AfterCalls;
    var e := AfterCalls(d, calls);
    if Ready(e.state[i]) {
      assert i >= e.cur;
    }
  }

  /** A failing input: one task, which makes a call for a task that does not exist. */
  lemma MissingTaskStops(call: Call)
    requires call == ReleaseTask(7) || call == QueuePacket(7)
    ensures var d := Dispatch([1], [Bits(false, false, false)], [0], 0);
      InOrder(d) && !MadeExist(d, [call]) && Turn(d, call).cur == 1 && Ready(Turn(d, call).state[0])
  {}

  // ---- what the calls are for

  /** Held, a task is passed over in every turn until it is released, however much work it gets. */
  lemma HeldStays(d: Dispatch, call: Call, i: nat)
    requires InOrder(d) && d.cur < |d.state| && i < |d.state| && d.state[i].held && call != ReleaseTask(i)
    ensures Shape(Turn(d, call)) && Turn(d, call).state[i].held && !Ready(Turn(d, call).state[i])
  {
    TurnKeeps(d, call);
  }

  /** Released, it is held no more; with nothing else against it, and a priority higher than the running task's, it is
      the one run next; else the running task goes on. */
  lemma ReleasedRuns(d: Dispatch, id: nat)
    requires InOrder(d) && d.cur < |d.state| && Ready(d.state[d.cur]) && id < |d.state| && id != d.cur
    ensures var e := Turn(d, ReleaseTask(id));
      && Shape(e) && e.state[id] == d.state[id].(held := false)
      && e.cur == (if d.priority[id] > d.priority[d.cur] then id else d.cur)
      && ((d.state[id].suspended ==> d.state[id].runnable) && d.priority[id] > d.priority[d.cur] ==>
            Ready(e.state[e.cur]) && e.cur == id)
      && forall k :: 0 <= k < |d.state| && k != id && k != d.cur ==> e.state[k] == d.state[k] && e.queued[k] == d.queued[k]
  {
    TurnKeeps(d, ReleaseTask(id));
  }

  /** A packet makes its task runnable; if it was only waiting for work, and is of higher priority, it is run next. */
  lemma QueuedRuns(d: Dispatch, id: nat)
    requires InOrder(d) && d.cur < |d.state| && Ready(d.state[d.cur]) && id < |d.state| && id != d.cur
    ensures var e := Turn(d, QueuePacket(id));
      && Shape(e) && e.state[id] == d.state[id].(runnable := true) && e.queued[id] == d.queued[id] + 1
      && (d.state[id].suspended && !d.state[id].held && d.queued[id] == 0 && d.priority[id] > d.priority[d.cur] ==>
            e.cur == id && Ready(e.state[id]))
      && (d.queued[id] > 0 || d.priority[id] < d.priority[d.cur] ==> e.cur == d.cur)
  {
    TurnKeeps(d, QueuePacket(id));
  }

  // ---- the six tasks of the benchmark

  /** The dispatcher of the machine: task `id` stands at place 5 - id, its priority is 1000 times its number. */
  ghost function Project(w: World): Dispatch
    requires Shaped(w)
  {
    Dispatch([5000, 4000, 3000, 2000, 1000, 0],
             [w.state[5], w.state[4], w.state[3], w.state[2], w.state[1], w.state[0]],
             [|w.at[Queue(5)]|, |w.at[Queue(4)]|, |w.at[Queue(3)]|, |w.at[Queue(2)]|, |w.at[Queue(1)]|, |w.at[Queue(0)]|],
             5 - w.cur)
  }

  lemma ProjectInOrder(w: World)
    requires Good(w)
    ensures InOrder(Project(w)) && |Project(w).state| == |Project(w).queued| == 6 && Project(w).cur == 5 - w.cur
    ensures forall i :: 0 <= i < 6 ==> Project(w).state[5 - i] == w.state[i] && Project(w).queued[5 - i] == |w.at[Queue(i)]|
  {
    hide OnePlace;
    hide AllFit;
    assert TaskOk(w, 0) && TaskOk(w, 1) && TaskOk(w, 2) && TaskOk(w, 3) && TaskOk(w, 4) && TaskOk(w, 5);
    hide TaskOk;
  }

  /** One task's bits and queue change, and which task is looked at. */
  ghost predicate ChangesAt(w: World, w': World, i: int, b: Bits, n: int, cur: int)
    requires Shaped(w) && Shaped(w')
  {
    && w'.cur == cur && 0 <= i < 6 && w'.state == w.state[i := b] && |w'.at[Queue(i)]| == n
    && forall k :: 0 <= k < 6 && k != i ==> |w'.at[Queue(k)]| == |w.at[Queue(k)]|
  }

  lemma ProjectChange(w: World, w': World, i: int, b: Bits, n: nat, cur: int)
    requires Shaped(w) && Shaped(w') && ChangesAt(w, w', i, b, n, cur)
    ensures Shape(Project(w)) && |Project(w).state| == 6 && Project(w') == With(Project(w), 5 - i, b, n, 5 - cur)
  {
    assert |w'.at[Queue(0)]| == (if i == 0 then n else |w.at[Queue(0)]|);
    assert |w'.at[Queue(1)]| == (if i == 1 then n else |w.at[Queue(1)]|);
    assert |w'.at[Queue(2)]| == (if i == 2 then n else |w.at[Queue(2)]|);
    assert |w'.at[Queue(3)]| == (if i == 3 then n else |w.at[Queue(3)]|);
    assert |w'.at[Queue(4)]| == (if i == 4 then n else |w.at[Queue(4)]|);
    assert |w'.at[Queue(5)]| == (if i == 5 then n else |w.at[Queue(5)]|);
  }

  lemma ProjectSame(w: World, w': World)
    requires Shaped(w) && Shaped(w') && w'.state == w.state && w'.cur == w.cur
    requires forall k :: 0 <= k < 6 ==> |w'.at[Queue(k)]| == |w.at[Queue(k)]|
    ensures Project(w') == Project(w)
  {}

  /** The machine after `run` has taken a packet, if it takes one; `from` is where the packet goes meanwhile. */
  lemma TakenIs(w: World, u: World, i: int)
    requires Good(w) && w.cur == i && 0 <= i < 6 && Shaped(u) && Ready(w.state[i])
    requires if Takes(w.state[i]) then ChangesAt(w, u, i, Bits(|w.at[Queue(i)]| > 1, false, false), |w.at[Queue(i)]| - 1, i)
      else u.state == w.state && u.cur == i && forall k :: 0 <= k < 6 ==> |u.at[Queue(k)]| == |w.at[Queue(k)]|
    ensures Shape(Project(w)) && BitsTell(Project(w)) && Project(w).cur < |Project(w).state| && Project(u) == Taken(Project(w))
    ensures Ready(Project(w).state[Project(w).cur])
  {
    ProjectInOrder(w);
    hide Good;
    if Takes(w.state[i]) {
      assert Project(w).queued[5 - i] > 0;
      ProjectChange(w, u, i, Bits(|w.at[Queue(i)]| > 1, false, false), |w.at[Queue(i)]| - 1, i);
    } else {
      ProjectSame(w, u);
    }
  }

  /** The calls, on a machine of which task `i` is looked at. */
  lemma SuspendIs(u: World, i: int)
    requires Shaped(u) && u.cur == i && 0 <= i < 6
    ensures Shaped(Suspend(u, i)) && Shape(Project(u)) && Project(u).cur < |Project(u).state|
    ensures Project(Suspend(u, i)) == Called(Project(u), SuspendCurrent)
  {
    ProjectChange(u, Suspend(u, i), i, u.state[i].(suspended := true), |u.at[Queue(i)]|, i);
  }

  lemma HoldIs(u: World, i: int)
    requires Shaped(u) && u.cur == i && 0 <= i < 6
    ensures Shaped(Hold(u, i)) && Shape(Project(u)) && Project(u).cur < |Project(u).state|
    ensures Project(Hold(u, i)) == Called(Project(u), HoldCurrent)
  {
    ProjectChange(u, Hold(u, i), i, u.state[i].(held := true), |u.at[Queue(i)]|, i - 1);
  }

  lemma ReleaseIs(u: World, id: int, i: int)
    requires Shaped(u) && u.cur == i && 0 <= i < 6 && 0 <= id < 6
    ensures Shaped(Release(u, id, i)) && Shape(Project(u)) && Project(u).cur < |Project(u).state|
    ensures Project(Release(u, id, i)) == Called(Project(u), ReleaseTask(5 - id))
  {
    ProjectChange(u, Release(u, id, i), id, u.state[id].(held := false), |u.at[Queue(id)]|, if id > i then id else i);
    PriorityIs(u, id);
    PriorityIs(u, i);
  }

  lemma PriorityIs(u: World, i: int)
    requires Shaped(u) && 0 <= i < 6
    ensures Project(u).priority[5 - i] == 1000 * i
  {}

  /** A packet goes from a place that is no queue: one that is being taken from counts as shorter already. */
  lemma SendIs(v: World, u: World, from: Place, n: Info, i: int)
    requires Shaped(v) && from in v.at && v.at[from] != [] && 0 < n.id < 6 && from != Queue(n.id) && 0 <= i < 6 && n.id != i
    requires Shaped(u) && u.cur == i && u.state == v.state
    requires forall k :: 0 <= k < 6 ==> |u.at[Queue(k)]| == |v.at[Queue(k)]| - if from == Queue(k) then 1 else 0
    ensures Shaped(Send(v, from, n, i)) && Shape(Project(u)) && Project(u).cur < |Project(u).state|
    ensures Project(Send(v, from, n, i)) == Called(Project(u), QueuePacket(5 - n.id))
  {
    hide *;
    var id := n.id;
    SendChange(v, u, from, n, i);
    PriorityIs(u, id);
    PriorityIs(u, i);
    var empty := |u.at[Queue(id)]| == 0;
    ProjectChange(u, Send(v, from, n, i), id, if empty then u.state[id].(runnable := true) else u.state[id],
                  |u.at[Queue(id)]| + 1, if empty && id > i then id else i);
    QueueCalled(Project(u), 5 - id, empty, if empty && id > i then id else i, u, i);
  }

  lemma SendChange(v: World, u: World, from: Place, n: Info, i: int)
    requires Shaped(v) && from in v.at && v.at[from] != [] && 0 < n.id < 6 && from != Queue(n.id) && 0 <= i < 6 && n.id != i
    requires Shaped(u) && u.cur == i && u.state == v.state
    requires forall k :: 0 <= k < 6 ==> |u.at[Queue(k)]| == |v.at[Queue(k)]| - if from == Queue(k) then 1 else 0
    ensures Shaped(Send(v, from, n, i)) && Queue(n.id) in u.at && |u.state| == 6
    ensures var id := n.id; var empty := |u.at[Queue(id)]| == 0;
      ChangesAt(u, Send(v, from, n, i), id, if empty then u.state[id].(runnable := true) else u.state[id],
                |u.at[Queue(id)]| + 1, if empty && id > i then id else i)
  {
    var id := n.id;
    var w', w1 := Send(v, from, n, i), Move(v, from, Queue(id), n.(id := i));
    assert w'.at == w1.at && w1.at == v.at[from := v.at[from][1..]][Queue(id) := v.at[Queue(id)] + [v.at[from][0]]];
    forall k | 0 <= k < 6
      ensures |w'.at[Queue(k)]| == |u.at[Queue(k)]| + if k == id then 1 else 0
    {
      if from == Queue(k) {
        assert w'.at[Queue(k)] == v.at[from][1..];
      }
    }
    assert |u.at[Queue(id)]| == |v.at[Queue(id)]|;
  }

  lemma QueueCalled(d: Dispatch, p: nat, empty: bool, cur: int, u: World, i: int)
    requires Shaped(u) && 0 <= i < 6 && u.cur == i && d == Project(u) && p < 6 && p != 5 - i
    requires empty <==> |u.at[Queue(5 - p)]| == 0
    requires cur == if empty && 5 - p > i then 5 - p else i
    ensures Shape(d) && d.cur < |d.state| == 6
    ensures Called(d, QueuePacket(p))
         == With(d, p, if empty then d.state[p].(runnable := true) else d.state[p], |u.at[Queue(5 - p)]| + 1, 5 - cur)
    ensures d.state[p] == u.state[5 - p]
  {
    assert d.queued[p] == |u.at[Queue(5 - p)]|;
    PriorityIs(u, 5 - p);
    PriorityIs(u, i);
  }

  /** The task looked at, which is ready, holds itself: the idle task at the end of its rounds, a device that takes a
      packet. */
  ghost predicate HoldsItself(w: World)
    requires Shaped(w) && 0 <= w.cur < |w.state|
  {
    (w.cur == ID_IDLE && w.count == 1) || (IsDevice(w.cur) && Takes(w.state[w.cur]))
  }

  /** It puts a packet into another's queue: the worker one that it takes, a device the one in its slot, a handler a work
      packet that is done with, or a device packet for a letter. */
  ghost predicate Posts(w: World)
    requires Good(w) && 0 <= w.cur < |w.state|
  {
    if w.cur == ID_WORKER then Takes(w.state[w.cur])
    else if IsDevice(w.cur) then !Takes(w.state[w.cur]) && Dev(w.cur) in w.at && w.at[Dev(w.cur)] != []
    else if IsHandler(w.cur) then HandlerPosts(Sorted(w, w.cur), w.cur)
    else false
  }

  ghost predicate HandlerPosts(s: World, i: int) {
    && V1(i) in s.at && V2(i) in s.at && s.at[V1(i)] != [] && s.at[V1(i)][0] in s.info
    && (s.info[s.at[V1(i)][0]].a1 >= DATA_SIZE || s.at[V2(i)] != [])
  }

  /** Which call a task makes. */
  ghost predicate CallIs(call: Call, holds: bool, posts: bool, cur: int) {
    && (call.HoldCurrent? <==> holds) && (call.QueuePacket? <==> posts) && (call.QueuePacket? ==> call.id != 5 - cur)
  }

  /** Every turn of the machine of the six tasks is a turn of this dispatcher, by a call for a task that exists. */
  lemma StepIsTurn(w: World) returns (call: Call)
    requires Good(w) && w.cur >= 0
    ensures Shaped(Step(w)) && Shape(Project(w)) && BitsTell(Project(w)) && Project(w).cur < |Project(w).state| == 6
    ensures Exists(6, call) && Project(Step(w)) == Turn(Project(w), call)
    ensures w.cur < |w.state| && (Ready(w.state[w.cur]) ==> CallIs(call, HoldsItself(w), Posts(w), w.cur))
  {
    hide *;
    Ids();
    GoodShaped(w);
    StepGood(w);
    GoodShaped(Step(w));
    StepDef(w);
    ProjectInOrder(w);
    InOrderParts(Project(w));
    if !Ready(w.state[w.cur]) {
      call := SuspendCurrent;
      PassIs(w);
    } else if w.cur == 0 {
      call := IdleTurn(w);
    } else if w.cur == 1 {
      call := WorkerTurn(w);
    } else if IsHandler(w.cur) {
      call := HandlerTurn(w, w.cur);
    } else {
      call := DeviceTurn(w, w.cur);
    }
    ExistsIs(call);
  }

  lemma InOrderParts(d: Dispatch)
    requires InOrder(d)
    ensures Shape(d) && BitsTell(d)
  {}

  ghost predicate CallOk(call: Call) {
    match call
    case ReleaseTask(id) => 0 <= id < 6
    case QueuePacket(id) => 0 <= id < 6
    case _ => true
  }

  lemma ExistsIs(call: Call)
    requires CallOk(call)
    ensures Exists(6, call)
  {}

  lemma PassIs(w: World)
    requires Shaped(w) && w.cur >= 0 && !Ready(w.state[w.cur]) && Shape(Project(w)) && BitsTell(Project(w))
    ensures Shaped(w.(cur := w.cur - 1)) && Project(w).cur < |Project(w).state|
    ensures Project(w.(cur := w.cur - 1)) == Turn(Project(w), SuspendCurrent) && CallOk(SuspendCurrent)
  {
    assert Project(w).state[5 - w.cur] == w.state[w.cur];
  }

  lemma TurnIs(d: Dispatch, e: Dispatch, call: Call)
    requires Shape(d) && BitsTell(d) && d.cur < |d.state| && Ready(d.state[d.cur])
    requires Shape(Taken(d)) && Taken(d).cur < |Taken(d).state| && e == Called(Taken(d), call)
    ensures e == Turn(d, call)
  {}

  lemma IdleTurn(w: World) returns (call: Call)
    requires Good(w) && w.cur == 0 && Ready(w.state[0]) && Shaped(IdleStep(w)) && Shape(Project(w)) && BitsTell(Project(w))
    ensures CallOk(call) && Project(w).cur < |Project(w).state| && Project(IdleStep(w)) == Turn(Project(w), call)
    ensures |w.state| == 6 && CallIs(call, HoldsItself(w), Posts(w), w.cur)
  {
    hide *;
    Ids();
    GoodShaped(w);
    IdleUnfold(w);
    var u := IdleFields(w);
    TakenIs(w, u, 0);
    if w.count == 1 {
      HoldIs(u, 0);
      call := HoldCurrent;
    } else {
      var id := if w.seed & 1 == 0 then 4 else 5;
      ReleaseIs(u, id, 0);
      call := ReleaseTask(5 - id);
    }
    TurnIs(Project(w), Project(IdleStep(w)), call);
    CallKinds(call);
    CallIsIdle(w, call);
  }

  lemma CallKinds(call: Call)
    requires call.ReleaseTask? ==> 0 <= call.id < 6
    requires call.QueuePacket? ==> 0 <= call.id < 6
    ensures CallOk(call)
  {}

  lemma CallIsIdle(w: World, call: Call)
    requires Good(w) && w.cur == 0 && Ready(w.state[0]) && (if w.count == 1 then call == HoldCurrent else call.ReleaseTask?)
    ensures CallIs(call, HoldsItself(w), Posts(w), w.cur)
  {}

  ghost function IdleFields(w: World): World {
    if w.count == 1 then w.(count := w.count - 1) else w.(count := w.count - 1, seed := NextSeed(w.seed))
  }

  lemma IdleUnfold(w: World)
    requires Good(w) && w.cur == 0 && Ready(w.state[0])
    ensures var u := IdleFields(w);
      && Shaped(w) && Shaped(u) && u.cur == 0 && u.state == w.state && u.at == w.at && !Takes(w.state[0]) && Queue(0) in w.at
      && (forall k :: 0 <= k < 6 ==> Queue(k) in w.at)
      && (w.count == 1 ==> IdleStep(w) == Hold(u, 0))
      && (w.count != 1 ==> IdleStep(w) == Release(u, if w.seed & 1 == 0 then 4 else 5, 0))
  {
    assert TaskOk(w, 0);
  }

  lemma WorkerTurn(w: World) returns (call: Call)
    requires Good(w) && w.cur == 1 && Ready(w.state[1]) && Shape(Project(w)) && BitsTell(Project(w))
    requires var letters := Letters(w.letter, DATA_SIZE);
      |letters| == DATA_SIZE && Shaped(WorkerStep(w, letters, NthLetter(w.letter, DATA_SIZE)))
    ensures CallOk(call) && Project(w).cur < |Project(w).state|
    ensures Project(WorkerStep(w, Letters(w.letter, DATA_SIZE), NthLetter(w.letter, DATA_SIZE))) == Turn(Project(w), call)
    ensures |w.state| == 6 && CallIs(call, HoldsItself(w), Posts(w), w.cur)
  {
    hide *;
    Ids();
    GoodShaped(w);
    var letters, letter := Letters(w.letter, DATA_SIZE), NthLetter(w.letter, DATA_SIZE);
    WorkerStepDef(w, letters, letter);
    if Takes(w.state[1]) {
      var v := AfterTake(w, 1).(workerTo := Other(w.workerTo), letter := letter);
      var n := Info(Other(w.workerTo), KIND_WORK, 0, letters);
      WorkerTakes(w, v);
      var u := Shorter(v, Queue(1));
      TakenIs(w, u, 1);
      SendIs(v, u, Queue(1), n, 1);
      call := QueuePacket(5 - n.id);
    } else {
      QueuesThere(w);
      TakenIs(w, w, 1);
      SuspendIs(w, 1);
      call := SuspendCurrent;
    }
    TurnIs(Project(w), Project(WorkerStep(w, letters, letter)), call);
    CallKinds(call);
    CallIsWorker(w, call);
  }

  lemma CallIsWorker(w: World, call: Call)
    requires Good(w) && w.cur == 1 && Ready(w.state[1])
    requires if Takes(w.state[1]) then call.QueuePacket? && call.id != 4 else call == SuspendCurrent
    ensures CallIs(call, HoldsItself(w), Posts(w), w.cur)
  {}

  lemma QueuesThere(w: World)
    requires Shaped(w)
    ensures forall k :: 0 <= k < 6 ==> Queue(k) in w.at
  {}

  /** The machine with the first packet of a place gone. */
  ghost function Shorter(v: World, from: Place): World
    requires from in v.at && v.at[from] != []
  {
    v.(at := v.at[from := v.at[from][1..]])
  }

  lemma WorkerTakes(w: World, v: World)
    requires Good(w) && w.cur == 1 && Takes(w.state[1])
    requires v == AfterTake(w, 1).(workerTo := v.workerTo, letter := v.letter)
    ensures Shaped(w) && Shaped(v) && Queue(1) in v.at && v.at[Queue(1)] != []
    ensures var u := Shorter(v, Queue(1));
      && Shaped(u) && u.cur == 1 && u.state == v.state
      && ChangesAt(w, u, 1, Bits(|w.at[Queue(1)]| > 1, false, false), |w.at[Queue(1)]| - 1, 1)
      && (forall k :: 0 <= k < 6 ==> Queue(k) in u.at && Queue(k) in v.at)
      && forall k :: 0 <= k < 6 ==> |u.at[Queue(k)]| == |v.at[Queue(k)]| - if Queue(1) == Queue(k) then 1 else 0
  {
    assert TaskOk(w, 1);
  }

  lemma HandlerTurn(w: World, i: int) returns (call: Call)
    requires Good(w) && w.cur == i && IsHandler(i) && Ready(w.state[i]) && Shape(Project(w)) && BitsTell(Project(w))
    requires var s := Sorted(w, i);
      Orderly(s) && Shaped(s) && AllFit(s) && Shaped(HandlerSend(s, i))
    ensures CallOk(call) && Project(w).cur < |Project(w).state| && Project(HandlerSend(Sorted(w, i), i)) == Turn(Project(w), call)
    ensures |w.state| == 6 && CallIs(call, HoldsItself(w), Posts(w), w.cur)
  {
    hide *;
    Ids();
    GoodShaped(w);
    var s := Sorted(w, i);
    SortedTakes(w, i);
    TakenIs(w, s, i);
    HandlerSendDef(s, i);
    if s.at[V1(i)] == [] {
      SuspendIs(s, i);
      call := SuspendCurrent;
    } else {
      var h := s.at[V1(i)][0];
      var n := s.info[h];
      if n.a1 >= DATA_SIZE {
        SameQueues(s, s, V1(i));
        SendIs(s, s, V1(i), n, i);
        call := QueuePacket(5 - n.id);
      } else if s.at[V2(i)] == [] {
        SuspendIs(s, i);
        call := SuspendCurrent;
      } else {
        var v := s.(info := s.info[h := n.(a1 := n.a1 + 1)]);
        SameQueues(s, v, V2(i));
        SendIs(v, s, V2(i), s.info[s.at[V2(i)][0]].(a1 := n.a2[n.a1]), i);
        call := QueuePacket(5 - (i + 2));
      }
    }
    TurnIs(Project(w), Project(HandlerSend(s, i)), call);
    CallKinds(call);
    HandlerPostsIs(s, i);
    CallIsHandler(w, i, call);
  }

  lemma HandlerPostsIs(s: World, i: int)
    requires Orderly(s) && IsHandler(i)
    ensures V1(i) in s.at && V2(i) in s.at && (s.at[V1(i)] != [] ==> s.at[V1(i)][0] in s.info)
    ensures HandlerPosts(s, i)
       <==> s.at[V1(i)] != [] && (s.info[s.at[V1(i)][0]].a1 >= DATA_SIZE || s.at[V2(i)] != [])
  {
    HandlerSendDef(s, i);
    hide Orderly;
  }

  lemma CallIsHandler(w: World, i: int, call: Call)
    requires Good(w) && w.cur == i && IsHandler(i) && Ready(w.state[i]) && Orderly(Sorted(w, i))
    requires if HandlerPosts(Sorted(w, i), i) then call.QueuePacket? && call.id != 5 - i else call == SuspendCurrent
    ensures CallIs(call, HoldsItself(w), Posts(w), w.cur)
  {
    hide HandlerPosts;
    hide Sorted;
  }

  lemma SameQueues(u: World, v: World, from: Place)
    requires Shaped(u) && Shaped(v) && u.at == v.at && !from.Queue?
    ensures forall k :: 0 <= k < 6 ==> Queue(k) in u.at && Queue(k) in v.at
    ensures forall k :: 0 <= k < 6 ==> |u.at[Queue(k)]| == |v.at[Queue(k)]| - if from == Queue(k) then 1 else 0
    ensures forall k :: from != Queue(k)
  {}

  lemma SortedTakes(w: World, i: int)
    requires Good(w) && w.cur == i && IsHandler(i) && Ready(w.state[i])
    ensures Shaped(w) && Shaped(Sorted(w, i)) && Sorted(w, i).cur == i && (forall k :: 0 <= k < 6 ==> Queue(k) in w.at)
    ensures forall k :: 0 <= k < 6 ==> Queue(k) in Sorted(w, i).at
    ensures Takes(w.state[i]) ==>
      ChangesAt(w, Sorted(w, i), i, Bits(|w.at[Queue(i)]| > 1, false, false), |w.at[Queue(i)]| - 1, i)
    ensures !Takes(w.state[i]) ==>
      Sorted(w, i).state == w.state && forall k :: 0 <= k < 6 ==> |Sorted(w, i).at[Queue(k)]| == |w.at[Queue(k)]|
  {
    SortedDef(w, i);
    hide Fits;
    hide OnePlace;
    hide AllFit;
    hide TasksOk;
    hide Weight;
  }

  lemma DeviceTurn(w: World, i: int) returns (call: Call)
    requires Good(w) && w.cur == i && IsDevice(i) && Ready(w.state[i]) && Shape(Project(w)) && BitsTell(Project(w))
    requires Orderly(w) && Shaped(DeviceStep(w, i))
    ensures CallOk(call) && Project(w).cur < |Project(w).state| && Project(DeviceStep(w, i)) == Turn(Project(w), call)
    ensures |w.state| == 6 && CallIs(call, HoldsItself(w), Posts(w), w.cur)
  {
    hide *;
    Ids();
    GoodShaped(w);
    DeviceStepDef(w, i);
    QueuesThere(w);
    if Takes(w.state[i]) {
      var n := w.info[w.at[Queue(i)][0]];
      var u := Move(AfterTake(w, i), Queue(i), Dev(i), n);
      DeviceTakes(w, i, n);
      TakenIs(w, u, i);
      HoldIs(u, i);
      call := HoldCurrent;
    } else {
      TakenIs(w, w, i);
      if w.at[Dev(i)] == [] {
        SuspendIs(w, i);
        call := SuspendCurrent;
      } else {
        var n := w.info[w.at[Dev(i)][0]];
        SameQueues(w, w, Dev(i));
        SendIs(w, w, Dev(i), n, i);
        call := QueuePacket(5 - n.id);
      }
    }
    TurnIs(Project(w), Project(DeviceStep(w, i)), call);
    CallKinds(call);
    CallIsDevice(w, i, call);
  }

  lemma CallIsDevice(w: World, i: int, call: Call)
    requires Good(w) && w.cur == i && IsDevice(i) && Ready(w.state[i]) && Dev(i) in w.at
    requires if Takes(w.state[i]) then call == HoldCurrent
      else if w.at[Dev(i)] == [] then call == SuspendCurrent else call.QueuePacket? && call.id != 5 - i
    ensures CallIs(call, HoldsItself(w), Posts(w), w.cur)
  {}

  lemma DeviceTakes(w: World, i: int, n: Info)
    requires Good(w) && w.cur == i && IsDevice(i) && Takes(w.state[i]) && Queue(i) in w.at && Dev(i) in w.at && w.at[Queue(i)] != []
    ensures Shaped(w) && Shaped(AfterTake(w, i)) && AfterTake(w, i).at == w.at
    ensures var u := Move(AfterTake(w, i), Queue(i), Dev(i), n);
      && Shaped(u) && u.cur == i && (forall k :: 0 <= k < 6 ==> Queue(k) in u.at && Queue(k) in w.at)
      && ChangesAt(w, u, i, Bits(|w.at[Queue(i)]| > 1, false, false), |w.at[Queue(i)]| - 1, i)
  {}

  /** So every run of the machine is a run of this dispatcher, by calls for tasks that exist. */
  lemma {:induction false} RunIsDispatch(w: World, n: nat) returns (calls: seq<Call>)
    requires Good(w)
    ensures Shaped(w) && Shaped(After(w, n)) && InOrder(Project(w)) && MadeExist(Project(w), calls)
    ensures Project(After(w, n)) == AfterCalls(Project(w), calls)
    decreases n
  {
    hide *;
    GoodShaped(w);
    ProjectInOrder(w);
    InOrderParts(Project(w));
    AfterFirst(w, n);
    if n == 0 || w.cur < 0 {
      calls := [];
      NoCalls(Project(w));
    } else {
      StepGood(w);
      var call := StepIsTurn(w);
      var rest := RunIsDispatch(Step(w), n - 1);
      calls := [call] + rest;
      InOrderParts(Project(Step(w)));
      FirstCall(Project(w), call, rest);
      GoodShaped(After(w, n));
    }
  }

  lemma AfterFirst(w: World, n: nat)
    requires Good(w)
    ensures Good(After(w, n))
    ensures if n == 0 || w.cur < 0 then After(w, n) == w else Good(Step(w)) && After(w, n) == After(Step(w), n - 1)
  {
    hide Good;
    hide Step;
    if w.cur >= 0 {
      StepGood(w);
    }
  }

  lemma NoCalls(d: Dispatch)
    requires Shape(d) && BitsTell(d)
    ensures MadeExist(d, []) && AfterCalls(d, []) == d
  {}

  lemma FirstCall(d: Dispatch, call: Call, rest: seq<Call>)
    requires Shape(d) && BitsTell(d) && d.cur < |d.state| == 6 && Exists(6, call)
    requires var e := Turn(d, call); Shape(e) && BitsTell(e) && MadeExist(e, rest)
    ensures MadeExist(d, [call] + rest) && AfterCalls(d, [call] + rest) == AfterCalls(Turn(d, call), rest)
  {
    assert ([call] + rest)[1..] == rest;
    TurnKeeps(d, call);
  }

  /** Which call was made shows: a task held itself, or a queue is longer. */
  lemma CallShows(d: Dispatch, call: Call)
    requires InOrder(d) && d.cur < |d.state| && Ready(d.state[d.cur]) && Exists(|d.state|, call)
    requires call.QueuePacket? ==> call.id != d.cur
    ensures var e := Turn(d, call);
      && Shape(e) && |e.state| == |d.state|
      && (call.HoldCurrent? <==> e.state[d.cur].held)
      && (call.QueuePacket? <==> exists k :: 0 <= k < |d.state| && e.queued[k] > d.queued[k])
  {
    TurnKeeps(d, call);
    var e := Turn(d, call);
    if call.QueuePacket? {
      assert e.queued[call.id] > d.queued[call.id];
    }
  }
}
