/** The Richards task dispatcher as a state machine over values: where every packet is, what it says,
    and how far every task is. */
module RichardsModel {
  import opened RichardsPackets

  const ID_IDLE := 0
  const ID_WORKER := 1
  const ID_HANDLER_A := 2
  const ID_HANDLER_B := 3
  const ID_DEVICE_A := 4
  const ID_DEVICE_B := 5
  const NUMBER_OF_IDS := 6
  const KIND_DEVICE := 0
  const KIND_WORK := 1

  /** Where a packet can be: in a task's queue, in one of a handler's two lists, in a device's slot. */
  datatype Place = Queue(id: int) | V1(id: int) | V2(id: int) | Dev(id: int)

  /** What a packet says: whom to go to next, its kind, its counter or letter, its letters. */
  datatype Info = Info(id: int, kind: int, a1: int, a2: seq<int>)

  /** A task's state word as its three bits. */
  datatype Bits = Bits(runnable: bool, suspended: bool, held: bool)

  /** The whole dispatcher.  `cur` is the task looked at, or -1 at the end of the list. */
  datatype World = World(
    at: map<Place, seq<Packet>>, info: map<Packet, Info>, state: seq<Bits>,
    seed: bv16, count: int, workerTo: int, letter: int, cur: int)

  predicate IsHandler(i: int) { i == ID_HANDLER_A || i == ID_HANDLER_B }

  predicate IsDevice(i: int) { i == ID_DEVICE_A || i == ID_DEVICE_B }

  predicate IsPlace(p: Place) {
    match p
    case Queue(i) => 0 <= i < NUMBER_OF_IDS
    case V1(i) => IsHandler(i)
    case V2(i) => IsHandler(i)
    case Dev(i) => IsDevice(i)
  }

  ghost predicate Shaped(w: World) {
    (forall p :: p in w.at <==> IsPlace(p)) && |w.state| == NUMBER_OF_IDS && -1 <= w.cur < NUMBER_OF_IDS
  }

  /** A task that `schedule` runs: not held, and not suspended without work. */
  predicate Ready(b: Bits) {
    !b.held && (b.suspended ==> b.runnable)
  }

  // ---- the packets

  /** Every packet is in exactly one place, once; a device holds at most one. */
  ghost predicate OnePlace(w: World) {
    && (forall p :: p in w.at ==> DistinctList(w.at[p]))
    && (forall p, q, x :: p in w.at && q in w.at && x in w.at[p] && x in w.at[q] ==> p == q)
    && (forall x :: x in w.info ==> exists p :: p in w.at && x in w.at[p])
    && (forall p :: p in w.at && p.Dev? ==> |w.at[p]| <= 1)
  }

  /** What the packet in a place says: work goes between the worker and the handlers, device packets
      between a handler and its device, and each knows where to go next. */
  ghost predicate Fits(p: Place, n: Info) {
    && |n.a2| == DATA_SIZE
    && match p
       case Queue(i) =>
         if i == ID_WORKER then n.kind == KIND_WORK
         else if IsHandler(i) then
           (n.kind == KIND_WORK && n.id == ID_WORKER && n.a1 == 0) || (n.kind == KIND_DEVICE && n.id == i + 2)
         else if IsDevice(i) then n.kind == KIND_DEVICE && n.id == i - 2
         else false
       case V1(_) => n.kind == KIND_WORK && n.id == ID_WORKER && 0 <= n.a1 <= DATA_SIZE
       case V2(i) => n.kind == KIND_DEVICE && n.id == i + 2
       case Dev(i) => n.kind == KIND_DEVICE && n.id == i - 2
  }

  ghost predicate AllFit(w: World) {
    forall p, x :: p in w.at && x in w.at[p] ==> x in w.info && Fits(p, w.info[x])
  }

  /** The first packet of a place, if any, says what packets there say. */
  ghost predicate FitsFirst(w: World, p: Place) {
    p in w.at && (w.at[p] != [] ==> w.at[p][0] in w.info && Fits(p, w.info[w.at[p][0]]))
  }

  // ---- the tasks

  /** The runnable bit says that the queue is not empty; only devices and the idle task are held; a
      suspended device has an empty slot; the idle task has no packets and, until held, rounds to go. */
  ghost predicate TaskOk(w: World, i: int)
    requires Shaped(w) && 0 <= i < NUMBER_OF_IDS
  {
    var b := w.state[i];
    && (b.runnable <==> w.at[Queue(i)] != [])
    && (i == ID_IDLE ==> !b.suspended && w.at[Queue(i)] == [] && (if b.held then w.count == 0 else w.count >= 1))
    && (i == ID_WORKER || IsHandler(i) ==> !b.held)
    && (IsDevice(i) && b.suspended ==> !b.held && w.at[Dev(i)] == [])
  }

  ghost predicate TasksOk(w: World)
    requires Shaped(w)
  {
    forall i :: 0 <= i < NUMBER_OF_IDS ==> TaskOk(w, i)
  }

  /** The list runs from task 5 down to task 0, by falling priority: those passed are not ready. */
  ghost predicate Passed(w: World)
    requires Shaped(w)
  {
    forall i :: w.cur < i < NUMBER_OF_IDS ==> !Ready(w.state[i])
  }

  /** What every step keeps about packets and tasks. */
  ghost predicate Orderly(w: World) {
    Shaped(w) && OnePlace(w) && AllFit(w) && TasksOk(w) && IsHandler(w.workerTo)
  }

  /** At the head of `schedule`'s loop. */
  ghost predicate Good(w: World) {
    Orderly(w) && Passed(w)
  }

  // ---- the steps

  function SetBits(w: World, i: int, b: Bits): World
    requires 0 <= i < |w.state|
  {
    w.(state := w.state[i := b])
  }

  /** The first packet of one place goes to the end of another, and says `n` from then on. */
  function Move(w: World, from: Place, to: Place, n: Info): World
    requires from in w.at && to in w.at && w.at[from] != [] && from != to
  {
    w.(at := w.at[from := w.at[from][1..]][to := w.at[to] + [w.at[from][0]]], info := w.info[w.at[from][0] := n])
  }

  /** `Scheduler.queue`: the first packet of `from` goes to the task that it names, and names its sender
      from then on.  A task without work becomes runnable and, of higher priority, is looked at next. */
  ghost function Send(w: World, from: Place, n: Info, sender: int): World
    requires Shaped(w) && from in w.at && w.at[from] != [] && 0 <= n.id < NUMBER_OF_IDS && from != Queue(n.id)
    requires 0 <= sender < NUMBER_OF_IDS
  {
    var dest := n.id;
    var w1 := Move(w, from, Queue(dest), n.(id := sender));
    if w.at[Queue(dest)] == [] then
      SetBits(w1, dest, w.state[dest].(runnable := true)).(cur := if dest > sender then dest else sender)
    else w1.(cur := sender)
  }

  ghost function Suspend(w: World, i: int): World
    requires 0 <= i < |w.state|
  {
    SetBits(w, i, w.state[i].(suspended := true)).(cur := i)
  }

  ghost function Hold(w: World, i: int): World
    requires 0 <= i < |w.state|
  {
    SetBits(w, i, w.state[i].(held := true)).(cur := i - 1)
  }

  ghost function Release(w: World, id: int, i: int): World
    requires 0 <= id < |w.state|
  {
    SetBits(w, id, w.state[id].(held := false)).(cur := if id > i then id else i)
  }

  /** The state of a task after its first packet was taken: running, or runnable while work is left. */
  ghost function AfterTake(w: World, i: int): World
    requires Shaped(w) && 0 <= i < NUMBER_OF_IDS
  {
    SetBits(w, i, Bits(|w.at[Queue(i)]| > 1, false, false))
  }

  /** The idle task's shift register: 16 bits, as 0xD008 and the first value 1 have no more. */
  ghost function NextSeed(seed: bv16): bv16 {
    if seed & 1 == 0 then seed >> 1 else (seed >> 1) ^ 0xD008
  }

  ghost predicate Bit(v: bv16, k: int)
    requires 0 <= k < 16
  {
    (v >> k) & 1 == 1
  }

  /** The register after a shift: every bit is the next higher one was, flipped in four places when a 1 falls out. */
  ghost predicate Shifted(before: bv16, after: bv16) {
    forall k :: 0 <= k < 16 ==>
      (Bit(after, k) <==> ((k < 15 && Bit(before, k + 1)) != (Bit(before, 0) && (k == 3 || k == 12 || k == 14 || k == 15))))
  }

  lemma SeedShifted(v: bv16)
    ensures Shifted(v, NextSeed(v))
  {
    forall k | 0 <= k < 16
      ensures Bit(NextSeed(v), k) <==> ((k < 15 && Bit(v, k + 1)) != (Bit(v, 0) && (k == 3 || k == 12 || k == 14 || k == 15)))
    {
      SeedBit(v, k);
    }
  }

  lemma SeedBit(v: bv16, k: int)
    requires 0 <= k < 16
    ensures Bit(NextSeed(v), k) <==> ((k < 15 && Bit(v, k + 1)) != (Bit(v, 0) && (k == 3 || k == 12 || k == 14 || k == 15)))
  {
    if k == 0 {} else if k == 1 {} else if k == 2 {} else if k == 3 {} else if k == 4 {} else if k == 5 {}
    else if k == 6 {} else if k == 7 {} else if k == 8 {} else if k == 9 {} else if k == 10 {} else if k == 11 {}
    else if k == 12 {} else if k == 13 {} else if k == 14 {} else {}
  }

  ghost function IdleStep(w: World): World
    requires Shaped(w)
  {
    var w1 := w.(count := w.count - 1);
    if w1.count == 0 then Hold(w1, ID_IDLE)
    else Release(w1.(seed := NextSeed(w.seed)), if w.seed & 1 == 0 then ID_DEVICE_A else ID_DEVICE_B, ID_IDLE)
  }

  /** Does `TaskControlBlock.run` take a packet off the queue? */
  ghost predicate Takes(b: Bits) {
    b.runnable && b.suspended && !b.held
  }

  ghost function DeviceStep(w: World, i: int): World
    requires Orderly(w) && IsDevice(i)
  {
    assert TaskOk(w, i) && FitsFirst(w, Queue(i)) && FitsFirst(w, Dev(i));
    if Takes(w.state[i]) then
      Hold(Move(AfterTake(w, i), Queue(i), Dev(i), w.info[w.at[Queue(i)][0]]), i)
    else if w.at[Dev(i)] == [] then Suspend(w, i)
    else Send(w, Dev(i), w.info[w.at[Dev(i)][0]], i)
  }

  ghost function Other(handler: int): int {
    if handler == ID_HANDLER_A then ID_HANDLER_B else ID_HANDLER_A
  }

  /** `letters` are what the worker writes into the packet. */
  ghost function WorkerStep(w: World, letters: seq<int>, letter: int): World
    requires Orderly(w)
  {
    assert TaskOk(w, ID_WORKER);
    if Takes(w.state[ID_WORKER]) then
      var w1 := AfterTake(w, ID_WORKER).(workerTo := Other(w.workerTo), letter := letter);
      Send(w1, Queue(ID_WORKER), Info(Other(w.workerTo), KIND_WORK, 0, letters), ID_WORKER)
    else Suspend(w, ID_WORKER)
  }

  /** A handler puts a packet taken off its queue to the others of its kind. */
  ghost function Sorted(w: World, i: int): World
    requires Orderly(w) && IsHandler(i)
  {
    assert TaskOk(w, i) && FitsFirst(w, Queue(i));
    if Takes(w.state[i]) then
      var n := w.info[w.at[Queue(i)][0]];
      Move(AfterTake(w, i), Queue(i), if n.kind == KIND_WORK then V1(i) else V2(i), n)
    else w
  }

  /** What a handler can work on: a work packet, and a device packet if letters are left. */
  ghost function HandlerSend(w: World, i: int): World
    requires Shaped(w) && AllFit(w) && IsHandler(i)
  {
    assert FitsFirst(w, V1(i)) && FitsFirst(w, V2(i));
    if w.at[V1(i)] == [] then Suspend(w, i)
    else
      var h := w.at[V1(i)][0];
      var n := w.info[h];
      if n.a1 < DATA_SIZE then
        if w.at[V2(i)] == [] then Suspend(w, i)
        else
          var v := w.info[w.at[V2(i)][0]];
          Send(w.(info := w.info[h := n.(a1 := n.a1 + 1)]), V2(i), v.(a1 := n.a2[n.a1]), i)
      else Send(w, V1(i), n, i)
  }

  // ---- taking a packet and sending one keep the packets in order

  lemma MovePlaces(w: World, from: Place, to: Place, n: Info)
    requires Shaped(w) && OnePlace(w) && AllFit(w) && from in w.at && to in w.at && w.at[from] != [] && from != to
    requires to.Dev? ==> w.at[to] == []
    ensures OnePlace(Move(w, from, to, n)) && Shaped(Move(w, from, to, n))
  {
    var w' := Move(w, from, to, n);
    var x := w.at[from][0];
    assert x in w.at[from];
    forall p | p in w'.at
      ensures DistinctList(w'.at[p])
      ensures forall y :: y in w'.at[p] <==> if y == x then p == to else y in w.at[p]
    {
      MovedList(w, from, to, n, p);
    }
    forall y | y in w'.info
      ensures exists p :: p in w'.at && y in w'.at[p]
    {
      if y == x {
        assert y in w'.at[to];
      } else {
        var p :| p in w.at && y in w.at[p];
        assert y in w'.at[p];
      }
    }
  }

  lemma MovedList(w: World, from: Place, to: Place, n: Info, p: Place)
    requires Shaped(w) && OnePlace(w) && from in w.at && to in w.at && w.at[from] != [] && from != to && p in w.at
    ensures var x, s := w.at[from][0], Move(w, from, to, n).at[p];
            DistinctList(s) && forall y :: y in s <==> if y == x then p == to else y in w.at[p]
  {
    var x, s := w.at[from][0], w.at[p];
    assert x in w.at[from] && x !in w.at[to];
    assert DistinctList(s) && DistinctList(w.at[from]);
    if p == from {
      assert s == [x] + s[1..];
    } else if p == to {
      assert forall y :: y in s + [x] <==> y in s || y == x;
    }
  }

  lemma MoveFits(w: World, from: Place, to: Place, n: Info)
    requires Shaped(w) && OnePlace(w) && AllFit(w) && from in w.at && to in w.at && w.at[from] != [] && from != to
    requires Fits(to, n)
    ensures AllFit(Move(w, from, to, n))
  {
    var w' := Move(w, from, to, n);
    var x := w.at[from][0];
    hide Fits;
    forall p, y | p in w'.at && y in w'.at[p]
      ensures y in w'.info && Fits(p, w'.info[y])
    {
      MovedList(w, from, to, n, p);
    }
  }

  /** All tasks are in order but the one whose queue is being taken from. */
  ghost predicate TasksOkBut(w: World, from: Place)
    requires Shaped(w) && from in w.at
  {
    forall i :: 0 <= i < NUMBER_OF_IDS ==>
      if from == Queue(i) then w.state[i] == Bits(|w.at[from]| > 1, false, false) && i != ID_IDLE
      else TaskOk(w, i)
  }

  lemma AfterTakeBut(w: World, i: int)
    requires Orderly(w) && 0 < i < NUMBER_OF_IDS && Takes(w.state[i])
    ensures var w' := AfterTake(w, i);
            && Shaped(w') && OnePlace(w') && AllFit(w') && TasksOkBut(w', Queue(i)) && w'.at == w.at && w'.info == w.info
            && w.at[Queue(i)] != []
  {
    var w' := AfterTake(w, i);
    assert TaskOk(w, i);
    forall k | 0 <= k < NUMBER_OF_IDS && k != i
      ensures TaskOk(w', k)
    {
      assert TaskOk(w, k);
    }
  }

  /** A packet goes from a queue to a list of its task. */
  lemma MoveTasks(w: World, from: Place, to: Place, n: Info)
    requires Shaped(w) && from in w.at && to in w.at && w.at[from] != [] && from != to && TasksOkBut(w, from)
    requires !to.Queue? && (to.Dev? ==> !w.state[to.id].suspended)
    ensures Shaped(Move(w, from, to, n)) && TasksOk(Move(w, from, to, n))
  {
    var w' := Move(w, from, to, n);
    forall i | 0 <= i < NUMBER_OF_IDS
      ensures TaskOk(w', i)
    {
      if from == Queue(i) {
        assert |w'.at[from]| == |w.at[from]| - 1;
      } else {
        assert TaskOk(w, i);
      }
    }
  }

  /** A packet is sent on. */
  lemma SendTasks(w: World, from: Place, n: Info, sender: int)
    requires Shaped(w) && from in w.at && w.at[from] != [] && 0 < n.id < NUMBER_OF_IDS && from != Queue(n.id)
    requires 0 <= sender < NUMBER_OF_IDS && TasksOkBut(w, from)
    ensures Shaped(Send(w, from, n, sender)) && TasksOk(Send(w, from, n, sender))
  {
    var w' := Send(w, from, n, sender);
    assert Shaped(w');
    forall i | 0 <= i < NUMBER_OF_IDS
      ensures TaskOk(w', i)
    {
      SendTask(w, from, n, sender, i);
    }
  }

  lemma SendTask(w: World, from: Place, n: Info, sender: int, i: int)
    requires Shaped(w) && from in w.at && w.at[from] != [] && 0 < n.id < NUMBER_OF_IDS && from != Queue(n.id)
    requires 0 <= sender < NUMBER_OF_IDS && TasksOkBut(w, from) && 0 <= i < NUMBER_OF_IDS && Shaped(Send(w, from, n, sender))
    ensures TaskOk(Send(w, from, n, sender), i)
  {
    var w' := Send(w, from, n, sender);
    if from == Queue(i) {
      assert |w'.at[from]| == |w.at[from]| - 1;
    } else {
      assert TaskOk(w, i);
    }
  }

  lemma SendOrderly(w: World, from: Place, n: Info, sender: int)
    requires Shaped(w) && OnePlace(w) && AllFit(w) && IsHandler(w.workerTo)
    requires from in w.at && TasksOkBut(w, from) && w.at[from] != [] && 0 < n.id < NUMBER_OF_IDS && from != Queue(n.id)
    requires 0 <= sender < NUMBER_OF_IDS && Fits(Queue(n.id), n.(id := sender))
    ensures Orderly(Send(w, from, n, sender))
  {
    MovePlaces(w, from, Queue(n.id), n.(id := sender));
    MoveFits(w, from, Queue(n.id), n.(id := sender));
    SendTasks(w, from, n, sender);
  }

  lemma MoveOrderly(w: World, from: Place, to: Place, n: Info)
    requires Shaped(w) && OnePlace(w) && AllFit(w) && IsHandler(w.workerTo)
    requires from in w.at && TasksOkBut(w, from) && to in w.at && w.at[from] != [] && from != to && Fits(to, n)
    requires !to.Queue? && (to.Dev? ==> !w.state[to.id].suspended && w.at[to] == [])
    ensures Orderly(Move(w, from, to, n))
  {
    MovePlaces(w, from, to, n);
    MoveFits(w, from, to, n);
    MoveTasks(w, from, to, n);
  }

  /** A change of one task's bits, or of fields that no invariant reads. */
  lemma BitsOrderly(w: World, i: int, b: Bits)
    requires Orderly(w) && 0 <= i < NUMBER_OF_IDS && b.runnable == w.state[i].runnable
    requires i == ID_IDLE ==> !b.suspended
    requires i == ID_WORKER || IsHandler(i) ==> !b.held
    requires IsDevice(i) && b.suspended ==> !b.held && w.at[Dev(i)] == []
    requires i == ID_IDLE ==> if b.held then w.count == 0 else w.count >= 1
    ensures Orderly(SetBits(w, i, b))
  {
    var w' := SetBits(w, i, b);
    forall k | 0 <= k < NUMBER_OF_IDS
      ensures TaskOk(w', k)
    {
      assert TaskOk(w, k);
    }
  }

  lemma SameOrderly(w: World, w': World)
    requires Orderly(w) && w'.at == w.at && w'.info == w.info && w'.state == w.state && w'.workerTo == w.workerTo
    requires w'.count == w.count && -1 <= w'.cur < NUMBER_OF_IDS
    ensures Orderly(w')
  {
    forall k | 0 <= k < NUMBER_OF_IDS
      ensures TaskOk(w', k)
    {
      assert TaskOk(w, k);
    }
  }

  // ---- the measure: how much can still happen before the idle task must act

  /** How many moves a packet can still make, more or less: device packets count twice, as they pay for
      the letters of work packets. */
  ghost function Weight(p: Place, n: Info, held: bool): nat {
    match p
    case Queue(i) =>
      if i == ID_WORKER then 3
      else if IsHandler(i) then (if n.kind == KIND_WORK then 2 else 8)
      else 4
    case V1(_) => if n.a1 < 0 then 1 else 1 + n.a1
    case V2(_) => 6
    case Dev(_) => if held then 2 else 10
  }

  ghost function Sum(s: seq<Packet>, info: map<Packet, Info>, p: Place, held: bool): nat {
    if s == [] then 0 else (if s[0] in info then Weight(p, info[s[0]], held) else 0) + Sum(s[1..], info, p, held)
  }

  ghost function SumAt(w: World, p: Place): nat
    requires Shaped(w)
  {
    if p in w.at then Sum(w.at[p], w.info, p, p.Dev? && w.state[p.id].held) else 0
  }

  ghost function Total(w: World): nat
    requires Shaped(w)
  {
    SumAt(w, Queue(1)) + SumAt(w, Queue(2)) + SumAt(w, Queue(3)) + SumAt(w, Queue(4)) + SumAt(w, Queue(5))
    + SumAt(w, V1(2)) + SumAt(w, V1(3)) + SumAt(w, V2(2)) + SumAt(w, V2(3)) + SumAt(w, Dev(4)) + SumAt(w, Dev(5))
  }

  lemma {:induction false} SumAppend(s: seq<Packet>, x: Packet, info: map<Packet, Info>, p: Place, held: bool)
    ensures Sum(s + [x], info, p, held) == Sum(s, info, p, held) + (if x in info then Weight(p, info[x], held) else 0)
  {
    if s == [] {
      assert s + [x] == [x];
    } else {
      assert (s + [x])[1..] == s[1..] + [x];
      SumAppend(s[1..], x, info, p, held);
    }
  }

  lemma {:induction false} SumOthers(s: seq<Packet>, x: Packet, n: Info, info: map<Packet, Info>, p: Place, held: bool)
    requires x !in s
    ensures Sum(s, info[x := n], p, held) == Sum(s, info, p, held)
  {
    if s != [] {
      SumOthers(s[1..], x, n, info, p, held);
    }
  }

  ghost function HeldAt(w: World, p: Place): bool
    requires Shaped(w) && p in w.at
  {
    p.Dev? && w.state[p.id].held
  }

  /** Only two places see a move. */
  lemma MoveSum(w: World, from: Place, to: Place, n: Info, p: Place)
    requires Shaped(w) && OnePlace(w) && AllFit(w) && from in w.at && to in w.at && w.at[from] != [] && from != to && p in w.at
    ensures var w', x := Move(w, from, to, n), w.at[from][0];
            && Shaped(w') && x in w.info
            && SumAt(w', p) == (if p == from then SumAt(w, p) - Weight(p, w.info[x], HeldAt(w, p))
                               else if p == to then SumAt(w, p) + Weight(p, n, HeldAt(w, p))
                               else SumAt(w, p))
  {
    hide Fits;
    hide Weight;
    var x, held := w.at[from][0], HeldAt(w, p);
    assert x in w.at[from] && DistinctList(w.at[from]);
    if p == from {
      assert x !in w.at[from][1..];
      SumOthers(w.at[from][1..], x, n, w.info, p, held);
    } else if p == to {
      SumOthers(w.at[to], x, n, w.info, p, held);
      SumAppend(w.at[to], x, w.info[x := n], p, held);
    } else {
      SumOthers(w.at[p], x, n, w.info, p, held);
    }
  }

  /** The tasks that are not suspended, the idle task aside. */
  ghost function Active(w: World): nat
    requires Shaped(w)
  {
    (if w.state[1].suspended then 0 else 1) + (if w.state[2].suspended then 0 else 1)
    + (if w.state[3].suspended then 0 else 1) + (if w.state[4].suspended then 0 else 1)
    + (if w.state[5].suspended then 0 else 1)
  }

  /** The rounds that the idle task still has. */
  ghost function RoundsLeft(w: World): nat
    requires Shaped(w)
  {
    if w.state[ID_IDLE].held || w.count < 0 then 0 else w.count
  }

  ghost function Work(w: World): nat
    requires Shaped(w)
  {
    3 * Total(w) + Active(w)
  }

  ghost predicate Counted(p: Place) {
    IsPlace(p) && p != Queue(0)
  }

  /** Two places change by an amount each, the others do not. */
  ghost predicate Trades(w: World, w': World, from: Place, less: int, to: Place, more: int)
    requires Shaped(w) && Shaped(w')
  {
    forall p :: Counted(p) ==>
      SumAt(w', p) == SumAt(w, p) - Pick(p, from, less) + Pick(p, to, more)
  }

  ghost function Pick(p: Place, q: Place, v: int): int {
    if p == q then v else 0
  }

  lemma PickOnce(q: Place, v: int)
    requires Counted(q)
    ensures Pick(Queue(1), q, v) + Pick(Queue(2), q, v) + Pick(Queue(3), q, v) + Pick(Queue(4), q, v)
            + Pick(Queue(5), q, v) + Pick(V1(2), q, v) + Pick(V1(3), q, v) + Pick(V2(2), q, v) + Pick(V2(3), q, v)
            + Pick(Dev(4), q, v) + Pick(Dev(5), q, v) == v
  {
    match q
    case Queue(i) =>
    case V1(i) =>
    case V2(i) =>
    case Dev(i) =>
  }

  lemma TradedTotal(w: World, w': World, from: Place, less: int, to: Place, more: int)
    requires Shaped(w) && Shaped(w') && Counted(from) && Counted(to) && Trades(w, w', from, less, to, more)
    ensures Total(w') == Total(w) - less + more
  {
    hide Pick;
    hide SumAt;
    hide Shaped;
    PickOnce(from, less);
    PickOnce(to, more);
    assert Counted(Queue(1)) && Counted(Queue(2)) && Counted(Queue(3)) && Counted(Queue(4)) && Counted(Queue(5));
    assert Counted(V1(2)) && Counted(V1(3)) && Counted(V2(2)) && Counted(V2(3)) && Counted(Dev(4)) && Counted(Dev(5));
  }

  /** A move trades the packet's weight in one place for its weight in the other. */
  lemma MoveTotal(w: World, from: Place, to: Place, n: Info)
    requires Shaped(w) && OnePlace(w) && AllFit(w) && from in w.at && to in w.at && w.at[from] != [] && from != to
    requires from != Queue(0) && to != Queue(0)
    ensures w.at[from][0] in w.info && Shaped(Move(w, from, to, n))
    ensures Total(Move(w, from, to, n))
         == Total(w) - Weight(from, w.info[w.at[from][0]], HeldAt(w, from)) + Weight(to, n, HeldAt(w, to))
    ensures Active(Move(w, from, to, n)) == Active(w) && RoundsLeft(Move(w, from, to, n)) == RoundsLeft(w)
  {
    hide *;
    MoveShaped(w, from, to, n);
    forall p | Counted(p)
      ensures p in w.at
      ensures SumAt(Move(w, from, to, n), p)
           == SumAt(w, p) - (if p == from then Weight(from, w.info[w.at[from][0]], HeldAt(w, from)) else 0)
              + (if p == to then Weight(to, n, HeldAt(w, to)) else 0)
    {
      CountedThere(w, p);
      MoveSum(w, from, to, n, p);
    }
    TradesIntro(w, Move(w, from, to, n), from, Weight(from, w.info[w.at[from][0]], HeldAt(w, from)), to,
                Weight(to, n, HeldAt(w, to)));
    TradedTotal(w, Move(w, from, to, n), from, Weight(from, w.info[w.at[from][0]], HeldAt(w, from)), to,
                Weight(to, n, HeldAt(w, to)));
  }

  lemma MoveShaped(w: World, from: Place, to: Place, n: Info)
    requires Shaped(w) && AllFit(w) && from in w.at && to in w.at && w.at[from] != [] && from != to
    requires from != Queue(0) && to != Queue(0)
    ensures w.at[from][0] in w.info && Shaped(Move(w, from, to, n)) && Counted(from) && Counted(to)
    ensures Active(Move(w, from, to, n)) == Active(w) && RoundsLeft(Move(w, from, to, n)) == RoundsLeft(w)
  {
    assert w.at[from][0] in w.at[from];
  }

  lemma CountedThere(w: World, p: Place)
    requires Shaped(w) && Counted(p)
    ensures p in w.at
  {}

  lemma TradesIntro(w: World, w': World, from: Place, less: int, to: Place, more: int)
    requires Shaped(w) && Shaped(w')
    requires forall p :: Counted(p) ==>
      SumAt(w', p) == SumAt(w, p) - (if p == from then less else 0) + (if p == to then more else 0)
    ensures Trades(w, w', from, less, to, more)
  {}

  /** Bits that change no device's hold change no weight. */
  lemma BitsTotal(w: World, i: int, b: Bits)
    requires Shaped(w) && 0 <= i < NUMBER_OF_IDS && b.held == w.state[i].held
    ensures Shaped(SetBits(w, i, b)) && Total(SetBits(w, i, b)) == Total(w)
    ensures RoundsLeft(SetBits(w, i, b)) == RoundsLeft(w)
  {}

  /** One packet's text changes in place. */
  lemma InfoTotal(w: World, p: Place, n: Info)
    requires Shaped(w) && OnePlace(w) && AllFit(w) && p in w.at && w.at[p] != [] && p != Queue(0)
    ensures var x := w.at[p][0];
            && x in w.info && Shaped(w.(info := w.info[x := n]))
            && Total(w.(info := w.info[x := n])) == Total(w) - Weight(p, w.info[x], HeldAt(w, p)) + Weight(p, n, HeldAt(w, p))
  {
    hide *;
    InfoShaped(w, p, n);
    var x := w.at[p][0];
    var w' := w.(info := w.info[x := n]);
    forall q | Counted(q)
      ensures q in w.at
      ensures SumAt(w', q) == SumAt(w, q) - (if q == p then Weight(p, w.info[x], HeldAt(w, p)) else 0)
              + (if q == p then Weight(p, n, HeldAt(w, p)) else 0)
    {
      CountedThere(w, q);
      InfoSum(w, p, n, q);
    }
    TradesIntro(w, w', p, Weight(p, w.info[x], HeldAt(w, p)), p, Weight(p, n, HeldAt(w, p)));
    TradedTotal(w, w', p, Weight(p, w.info[x], HeldAt(w, p)), p, Weight(p, n, HeldAt(w, p)));
  }

  lemma InfoShaped(w: World, p: Place, n: Info)
    requires Shaped(w) && AllFit(w) && p in w.at && w.at[p] != [] && p != Queue(0)
    ensures w.at[p][0] in w.info && Shaped(w.(info := w.info[w.at[p][0] := n])) && Counted(p)
  {
    assert w.at[p][0] in w.at[p];
  }

  lemma InfoSum(w: World, p: Place, n: Info, q: Place)
    requires Shaped(w) && OnePlace(w) && AllFit(w) && p in w.at && w.at[p] != [] && q in w.at
    ensures var x := w.at[p][0];
            && x in w.info && Shaped(w.(info := w.info[x := n]))
            && SumAt(w.(info := w.info[x := n]), q)
            == (if q == p then SumAt(w, p) - Weight(p, w.info[x], HeldAt(w, p)) + Weight(p, n, HeldAt(w, p)) else SumAt(w, q))
  {
    var x, held := w.at[p][0], HeldAt(w, q);
    assert x in w.at[p] && DistinctList(w.at[p]);
    if q == p {
      assert x !in w.at[p][1..];
      SumOthers(w.at[p][1..], x, n, w.info, p, held);
    } else {
      SumOthers(w.at[q], x, n, w.info, q, held);
    }
  }

  /** Sending a packet on makes the measure lighter by what its place weighed more than a queue does. */
  lemma SendTotal(w: World, from: Place, n: Info, sender: int)
    requires Shaped(w) && OnePlace(w) && AllFit(w) && from in w.at && w.at[from] != [] && from != Queue(0)
    requires 0 < n.id < NUMBER_OF_IDS && from != Queue(n.id) && 0 <= sender < NUMBER_OF_IDS
    ensures Shaped(Send(w, from, n, sender)) && w.at[from][0] in w.info
    ensures Total(Send(w, from, n, sender))
         == Total(w) - Weight(from, w.info[w.at[from][0]], HeldAt(w, from)) + Weight(Queue(n.id), n, false)
    ensures Active(Send(w, from, n, sender)) == Active(w) && RoundsLeft(Send(w, from, n, sender)) == RoundsLeft(w)
  {
    hide *;
    var n' := n.(id := sender);
    SendParts(w, from, n, sender);
    MoveTotal(w, from, Queue(n.id), n');
    var w1 := Move(w, from, Queue(n.id), n');
    var b := w.state[n.id].(runnable := true);
    BitsTotal(w1, n.id, b);
    BitsActive(w1, n.id, b);
    CurTotal(w1, sender);
    CurTotal(SetBits(w1, n.id, b), if n.id > sender then n.id else sender);
  }

  lemma SendParts(w: World, from: Place, n: Info, sender: int)
    requires Shaped(w) && from in w.at && w.at[from] != [] && from != Queue(0)
    requires 0 < n.id < NUMBER_OF_IDS && from != Queue(n.id) && 0 <= sender < NUMBER_OF_IDS
    ensures |w.state| == NUMBER_OF_IDS && Queue(n.id) in w.at && !HeldAt(w, Queue(n.id))
    ensures forall h :: Weight(Queue(n.id), n.(id := sender), h) == Weight(Queue(n.id), n, h)
    ensures var w1 := Move(w, from, Queue(n.id), n.(id := sender));
            && w1.state == w.state
            && (Send(w, from, n, sender) == w1.(cur := sender)
                || Send(w, from, n, sender) == SetBits(w1, n.id, w.state[n.id].(runnable := true)).(cur := if n.id > sender then n.id else sender))
  {}

  lemma BitsActive(w: World, i: int, b: Bits)
    requires Shaped(w) && 0 <= i < NUMBER_OF_IDS && b.suspended == w.state[i].suspended
    ensures Shaped(SetBits(w, i, b)) && Active(SetBits(w, i, b)) == Active(w)
  {}

  lemma CurTotal(w: World, cur: int)
    requires Shaped(w) && -1 <= cur < NUMBER_OF_IDS
    ensures Shaped(w.(cur := cur)) && Total(w.(cur := cur)) == Total(w) && Active(w.(cur := cur)) == Active(w)
    ensures RoundsLeft(w.(cur := cur)) == RoundsLeft(w)
  {}

  // ---- every step keeps the dispatcher in order and comes closer to the end

  /** Less is left to do. */
  ghost predicate Lower(w': World, w: World)
    requires Shaped(w) && Shaped(w')
  {
    RoundsLeft(w') < RoundsLeft(w) || (RoundsLeft(w') == RoundsLeft(w) && Work(w') < Work(w))
  }

  /** What a step of task `i` may do to the tasks passed: change one other task's bits, and look at it
      next if it is one of them. */
  lemma PassedAfter(w: World, w': World, i: int, d: int)
    requires Shaped(w) && Shaped(w') && Passed(w) && w.cur == i && 0 <= i < NUMBER_OF_IDS && 0 <= d < NUMBER_OF_IDS
    requires forall k :: 0 <= k < NUMBER_OF_IDS && k != i && k != d ==> w'.state[k] == w.state[k]
    requires w'.cur >= i || (w'.cur == i - 1 && !Ready(w'.state[i]))
    requires w'.cur >= d || w'.state[d] == w.state[d] || d == i
    ensures Passed(w')
  {}

  lemma ReadyTakes(b: Bits)
    requires Ready(b)
    ensures !b.held && (Takes(b) <==> b.suspended)
  {}

  /** `suspendCurrent` on a task that is not suspended. */
  lemma SuspendGood(w: World, i: int)
    requires Orderly(w) && 0 < i < NUMBER_OF_IDS && Passed(w.(cur := i)) && !w.state[i].suspended && !w.state[i].held
    requires IsDevice(i) ==> w.at[Dev(i)] == []
    ensures Good(Suspend(w, i)) && Total(Suspend(w, i)) == Total(w) && Active(Suspend(w, i)) == Active(w) - 1
    ensures RoundsLeft(Suspend(w, i)) == RoundsLeft(w)
  {
    hide OnePlace;
    hide AllFit;
    hide Total;
    var b := w.state[i].(suspended := true);
    BitsOrderly(w, i, b);
    var w1 := SetBits(w, i, b);
    SameOrderly(w1, w1.(cur := i));
    BitsTotal(w, i, b);
    CurTotal(w1, i);
  }

  /** `queue` from a list of the sender. */
  lemma SendGood(w: World, from: Place, n: Info, i: int)
    requires Shaped(w) && OnePlace(w) && AllFit(w) && IsHandler(w.workerTo) && from in w.at && TasksOkBut(w, from)
    requires w.at[from] != [] && 0 < n.id < NUMBER_OF_IDS && from != Queue(n.id) && 0 < i < NUMBER_OF_IDS
    requires Fits(Queue(n.id), n.(id := i)) && Passed(w.(cur := i))
    ensures Good(Send(w, from, n, i))
  {
    SendOrderly(w, from, n, i);
    hide OnePlace;
    hide AllFit;
    var w' := Send(w, from, n, i);
    PassedAfter(w.(cur := i), w', i, n.id);
  }

  lemma TasksBut(w: World, from: Place)
    requires Shaped(w) && TasksOk(w) && from in w.at && !from.Queue?
    ensures TasksOkBut(w, from)
  {
    forall i | 0 <= i < NUMBER_OF_IDS
      ensures TaskOk(w, i)
    {
    }
  }

  lemma FirstFits(w: World, p: Place)
    requires Shaped(w) && AllFit(w) && p in w.at
    ensures FitsFirst(w, p)
  {
    if w.at[p] != [] {
      assert w.at[p][0] in w.at[p];
    }
  }

  /** Taking a packet off the queue makes the task active. */
  lemma TakeTotal(w: World, i: int)
    requires Orderly(w) && 0 < i < NUMBER_OF_IDS && Takes(w.state[i])
    ensures var w' := AfterTake(w, i);
            Shaped(w') && Total(w') == Total(w) && Active(w') == Active(w) + 1 && RoundsLeft(w') == RoundsLeft(w)
  {
    hide OnePlace;
    hide AllFit;
    BitsTotal(w, i, Bits(|w.at[Queue(i)]| > 1, false, false));
  }

  lemma Ids()
    ensures ID_IDLE == 0 && ID_WORKER == 1 && ID_HANDLER_A == 2 && ID_HANDLER_B == 3 && ID_DEVICE_A == 4 && ID_DEVICE_B == 5
    ensures NUMBER_OF_IDS == 6 && DATA_SIZE == 4
    ensures forall i :: (IsHandler(i) <==> i == 2 || i == 3) && (IsDevice(i) <==> i == 4 || i == 5)
  {}

  lemma WorkerStepDef(w: World, letters: seq<int>, letter: int)
    requires Orderly(w) && |letters| == DATA_SIZE
    ensures |w.state| == NUMBER_OF_IDS && Queue(ID_WORKER) in w.at
    ensures !Takes(w.state[ID_WORKER]) ==> WorkerStep(w, letters, letter) == Suspend(w, ID_WORKER)
    ensures Takes(w.state[ID_WORKER]) ==>
      var w1 := AfterTake(w, ID_WORKER).(workerTo := Other(w.workerTo), letter := letter);
      var n := Info(Other(w.workerTo), KIND_WORK, 0, letters);
      && Shaped(w1) && w1.at[Queue(ID_WORKER)] != [] && WorkerStep(w, letters, letter) == Send(w1, Queue(ID_WORKER), n, ID_WORKER)
      && Fits(Queue(n.id), n.(id := ID_WORKER)) && 0 < n.id < NUMBER_OF_IDS && n.id != ID_WORKER && IsHandler(w1.workerTo)
      && Weight(Queue(n.id), n, false) == 2
  {
    assert TaskOk(w, ID_WORKER);
  }

  lemma GoodShaped(w: World)
    requires Good(w)
    ensures Orderly(w) && Shaped(w) && OnePlace(w) && AllFit(w) && Passed(w) && |w.state| == NUMBER_OF_IDS
  {}

  lemma LowerWork(w': World, w: World, before: nat, after: nat)
    requires Shaped(w) && Shaped(w') && RoundsLeft(w') == RoundsLeft(w) && Work(w) == before && Work(w') == after < before
    ensures Lower(w', w)
  {}

  lemma WorkIs(w: World)
    requires Shaped(w)
    ensures Work(w) == 3 * Total(w) + Active(w)
  {}

  lemma WorkerStepGood(w: World, letters: seq<int>, letter: int)
    requires Good(w) && w.cur == ID_WORKER && Ready(w.state[ID_WORKER]) && |letters| == DATA_SIZE
    ensures Good(WorkerStep(w, letters, letter)) && Lower(WorkerStep(w, letters, letter), w)
  {
    hide *;
    Ids();
    GoodShaped(w);
    ReadyTakes(w.state[ID_WORKER]);
    WorkerStepDef(w, letters, letter);
    var w' := WorkerStep(w, letters, letter);
    if Takes(w.state[ID_WORKER]) {
      AfterTakeBut(w, ID_WORKER);
      AfterTakePassed(w, ID_WORKER);
      TakeTotal(w, ID_WORKER);
      var w0 := AfterTake(w, ID_WORKER);
      var w1 := w0.(workerTo := Other(w.workerTo), letter := letter);
      var n := Info(Other(w.workerTo), KIND_WORK, 0, letters);
      WorkerFields(w0, w1);
      SendGood(w1, Queue(ID_WORKER), n, ID_WORKER);
      SendTotal(w1, Queue(ID_WORKER), n, ID_WORKER);
      WorkerWeight(w1);
    } else {
      SuspendGood(w, ID_WORKER) by {
        PassedHere(w, ID_WORKER);
      }
    }
    GoodShaped(w');
    WorkIs(w);
    WorkIs(w');
    LowerWork(w', w, Work(w), Work(w'));
  }

  lemma WorkerWeight(w: World)
    requires Shaped(w) && AllFit(w) && w.at[Queue(ID_WORKER)] != []
    ensures w.at[Queue(ID_WORKER)][0] in w.info
    ensures Weight(Queue(ID_WORKER), w.info[w.at[Queue(ID_WORKER)][0]], HeldAt(w, Queue(ID_WORKER))) == 3
  {
    assert w.at[Queue(ID_WORKER)][0] in w.at[Queue(ID_WORKER)];
  }

  lemma PassedHere(w: World, i: int)
    requires Good(w) && w.cur == i
    ensures w.(cur := i) == w && |w.state| == NUMBER_OF_IDS && (IsDevice(i) ==> Dev(i) in w.at)
    ensures i == ID_WORKER || IsHandler(i) ==> !w.state[i].held && !IsDevice(i)
  {
    assert 0 <= i < NUMBER_OF_IDS ==> TaskOk(w, i);
  }

  /** Taking a packet changes nothing about the tasks passed. */
  lemma AfterTakePassed(w: World, i: int)
    requires Good(w) && w.cur == i && 0 <= i < NUMBER_OF_IDS
    ensures Shaped(AfterTake(w, i)) && AfterTake(w, i).cur == i && Passed(AfterTake(w, i))
    ensures forall to, letter :: AfterTake(w, i).(workerTo := to, letter := letter, cur := i)
                              == AfterTake(w, i).(workerTo := to, letter := letter)
    ensures forall to, letter :: Shaped(AfterTake(w, i).(workerTo := to, letter := letter))
                              && Passed(AfterTake(w, i).(workerTo := to, letter := letter))
  {}

  lemma SamePlaces(w: World, w': World)
    requires w'.at == w.at && w'.info == w.info
    ensures OnePlace(w') == OnePlace(w) && AllFit(w') == AllFit(w)
  {}

  /** The worker's own fields are in no invariant and no measure. */
  lemma WorkerFields(w: World, w': World)
    requires Shaped(w) && OnePlace(w) && AllFit(w) && TasksOkBut(w, Queue(ID_WORKER))
    requires w' == w.(workerTo := w'.workerTo, letter := w'.letter)
    ensures Shaped(w') && OnePlace(w') && AllFit(w') && TasksOkBut(w', Queue(ID_WORKER))
    ensures Total(w') == Total(w) && Active(w') == Active(w) && RoundsLeft(w') == RoundsLeft(w)
  {
    SamePlaces(w, w');
    hide OnePlace;
    hide AllFit;
    SameSums(w, w');
    hide Total;
    hide Active;
    forall i | 0 <= i < NUMBER_OF_IDS && i != ID_WORKER
      ensures TaskOk(w', i)
    {
      assert TaskOk(w, i);
    }
  }

  lemma SameSums(w: World, w': World)
    requires Shaped(w) && Shaped(w') && w'.at == w.at && w'.info == w.info && w'.state == w.state
    ensures Total(w') == Total(w) && Active(w') == Active(w)
  {
    hide Sum;
    hide Shaped;
    assert SumAt(w', Queue(1)) == SumAt(w, Queue(1)) && SumAt(w', Queue(2)) == SumAt(w, Queue(2));
    assert SumAt(w', Queue(3)) == SumAt(w, Queue(3)) && SumAt(w', Queue(4)) == SumAt(w, Queue(4));
    assert SumAt(w', Queue(5)) == SumAt(w, Queue(5)) && SumAt(w', V1(2)) == SumAt(w, V1(2));
    assert SumAt(w', V1(3)) == SumAt(w, V1(3)) && SumAt(w', V2(2)) == SumAt(w, V2(2));
    assert SumAt(w', V2(3)) == SumAt(w, V2(3)) && SumAt(w', Dev(4)) == SumAt(w, Dev(4)) && SumAt(w', Dev(5)) == SumAt(w, Dev(5));
  }

  // ---- the devices

  lemma DeviceStepDef(w: World, i: int)
    requires Orderly(w) && IsDevice(i)
    ensures |w.state| == NUMBER_OF_IDS && Queue(i) in w.at && Dev(i) in w.at
    ensures Takes(w.state[i]) ==>
      && w.at[Queue(i)] != [] && w.at[Queue(i)][0] in w.info && Fits(Dev(i), w.info[w.at[Queue(i)][0]]) && w.at[Dev(i)] == []
      && Shaped(AfterTake(w, i)) && AfterTake(w, i).at == w.at
      && DeviceStep(w, i) == Hold(Move(AfterTake(w, i), Queue(i), Dev(i), w.info[w.at[Queue(i)][0]]), i)
    ensures !Takes(w.state[i]) && w.at[Dev(i)] == [] ==> DeviceStep(w, i) == Suspend(w, i)
    ensures !Takes(w.state[i]) && w.at[Dev(i)] != [] ==>
      && w.at[Dev(i)][0] in w.info
      && var n := w.info[w.at[Dev(i)][0]];
      && n.id == i - 2 && Fits(Queue(i - 2), n.(id := i)) && DeviceStep(w, i) == Send(w, Dev(i), n, i)
  {
    assert TaskOk(w, i);
    FirstFits(w, Queue(i));
    FirstFits(w, Dev(i));
  }

  /** `holdCurrent` after the packet came to the slot. */
  lemma HoldGood(w: World, i: int)
    requires Orderly(w) && Passed(w) && w.cur == i && IsDevice(i) && !w.state[i].suspended
    ensures Good(Hold(w, i))
  {
    hide OnePlace;
    hide AllFit;
    var b := w.state[i].(held := true);
    BitsOrderly(w, i, b);
    var w1 := SetBits(w, i, b);
    SameOrderly(w1, w1.(cur := i - 1));
  }

  /** Holding a device makes the packet in its slot as light as one that cannot move. */
  lemma HoldTotal(w: World, i: int)
    requires Shaped(w) && OnePlace(w) && AllFit(w) && IsDevice(i) && !w.state[i].held && |w.at[Dev(i)]| == 1
    ensures Shaped(Hold(w, i)) && Total(Hold(w, i)) == Total(w) - 8
    ensures Active(Hold(w, i)) == Active(w) && RoundsLeft(Hold(w, i)) == RoundsLeft(w)
  {
    hide *;
    HoldShaped(w, i);
    var w' := Hold(w, i);
    forall p | Counted(p)
      ensures SumAt(w', p) == SumAt(w, p) - (if p == Dev(i) then 10 else 0) + (if p == Dev(i) then 2 else 0)
    {
      HoldSum(w, i, p);
    }
    TradesIntro(w, w', Dev(i), 10, Dev(i), 2);
    TradedTotal(w, w', Dev(i), 10, Dev(i), 2);
  }

  lemma HoldShaped(w: World, i: int)
    requires Shaped(w) && AllFit(w) && IsDevice(i) && |w.at[Dev(i)]| == 1
    ensures Dev(i) in w.at && w.at[Dev(i)][0] in w.info && |w.state| == NUMBER_OF_IDS && 0 <= i < NUMBER_OF_IDS
    ensures Shaped(Hold(w, i)) && Counted(Dev(i))
    ensures Active(Hold(w, i)) == Active(w) && RoundsLeft(Hold(w, i)) == RoundsLeft(w)
  {
    assert w.at[Dev(i)][0] in w.at[Dev(i)];
  }

  lemma HoldSum(w: World, i: int, p: Place)
    requires Shaped(w) && IsDevice(i) && !w.state[i].held && |w.at[Dev(i)]| == 1 && w.at[Dev(i)][0] in w.info && Counted(p)
    ensures Shaped(Hold(w, i))
    ensures SumAt(Hold(w, i), p) == SumAt(w, p) - (if p == Dev(i) then 10 else 0) + (if p == Dev(i) then 2 else 0)
  {
    if p == Dev(i) {
      var s := w.at[p];
      assert s[1..] == [];
      assert Sum(s, w.info, p, false) == Weight(p, w.info[s[0]], false) + Sum(s[1..], w.info, p, false);
      assert Sum(s, w.info, p, true) == Weight(p, w.info[s[0]], true) + Sum(s[1..], w.info, p, true);
    }
  }

  lemma DeviceStepGood(w: World, i: int)
    requires Good(w) && w.cur == i && IsDevice(i) && Ready(w.state[i])
    ensures Good(DeviceStep(w, i)) && Lower(DeviceStep(w, i), w)
  {
    hide *;
    Ids();
    GoodShaped(w);
    DeviceStepDef(w, i);
    ReadyTakes(w.state[i]);
    PassedHere(w, i);
    var w' := DeviceStep(w, i);
    if Takes(w.state[i]) {
      AfterTakeBut(w, i);
      AfterTakePassed(w, i);
      AfterTakeBits(w, i);
      TakeTotal(w, i);
      var w1, n := AfterTake(w, i), w.info[w.at[Queue(i)][0]];
      MoveOrderly(w1, Queue(i), Dev(i), n) by {
        HandlerKept(w, i);
      }
      MoveTotal(w1, Queue(i), Dev(i), n);
      var w2 := Move(w1, Queue(i), Dev(i), n);
      MoveFrame(w1, Queue(i), Dev(i), n, i);
      HoldGood(w2, i);
      OrderlyParts(w2);
      HoldTotal(w2, i);
      DeviceWeights(w1, w2, i, n);
    } else if w.at[Dev(i)] == [] {
      SuspendGood(w, i);
    } else {
      var n := w.info[w.at[Dev(i)][0]];
      TasksBut(w, Dev(i));
      SendGood(w, Dev(i), n, i) by {
        HandlerKept(w, i);
      }
      SendTotal(w, Dev(i), n, i);
      SlotWeights(w, i, n);
    }
    GoodShaped(w');
    WorkIs(w);
    WorkIs(w');
    LowerWork(w', w, Work(w), Work(w'));
  }

  lemma HandlerKept(w: World, i: int)
    requires Orderly(w) && 0 <= i < NUMBER_OF_IDS
    ensures IsHandler(w.workerTo) && IsHandler(AfterTake(w, i).workerTo) && TasksOk(w)
  {}

  lemma OrderlyParts(w: World)
    requires Orderly(w)
    ensures Shaped(w) && OnePlace(w) && AllFit(w) && TasksOk(w) && IsHandler(w.workerTo)
  {}

  lemma AfterTakeBits(w: World, i: int)
    requires Shaped(w) && 0 <= i < NUMBER_OF_IDS
    ensures var b := AfterTake(w, i).state[i]; !b.suspended && !b.held && AfterTake(w, i).info == w.info
    ensures AfterTake(w, i).at == w.at && AfterTake(w, i).cur == w.cur
  {}

  /** What a move leaves alone. */
  lemma MoveFrame(w: World, from: Place, to: Place, n: Info, i: int)
    requires Shaped(w) && from in w.at && to in w.at && w.at[from] != [] && from != to && 0 <= i < NUMBER_OF_IDS
    requires Passed(w)
    ensures var w' := Move(w, from, to, n);
      && Shaped(w') && Passed(w') && w'.cur == w.cur && w'.state == w.state && |w.state| == NUMBER_OF_IDS
      && to in w'.at && |w'.at[to]| == |w.at[to]| + 1
      && (forall p :: p in w.at && p != from && p != to ==> p in w'.at && w'.at[p] == w.at[p])
  {}

  lemma DeviceWeights(w: World, w': World, i: int, n: Info)
    requires Shaped(w) && IsDevice(i) && !w.state[i].held && w.at[Queue(i)] != [] && w.at[Queue(i)][0] in w.info
    ensures Weight(Queue(i), w.info[w.at[Queue(i)][0]], HeldAt(w, Queue(i))) == 4 && Weight(Dev(i), n, HeldAt(w, Dev(i))) == 10
  {}

  lemma SlotWeights(w: World, i: int, n: Info)
    requires Shaped(w) && IsDevice(i) && !w.state[i].held && Fits(Dev(i), n)
    ensures Weight(Dev(i), n, HeldAt(w, Dev(i))) == 10 && Weight(Queue(n.id), n, false) == 8
  {}

  // ---- the handlers

  lemma SortedDef(w: World, i: int)
    requires Orderly(w) && IsHandler(i)
    ensures |w.state| == NUMBER_OF_IDS && Queue(i) in w.at && V1(i) in w.at && V2(i) in w.at
    ensures !Takes(w.state[i]) ==> Sorted(w, i) == w
    ensures Takes(w.state[i]) ==>
      && w.at[Queue(i)] != [] && w.at[Queue(i)][0] in w.info
      && var n := w.info[w.at[Queue(i)][0]];
      && var to := if n.kind == KIND_WORK then V1(i) else V2(i);
      && Fits(to, n) && Shaped(AfterTake(w, i)) && AfterTake(w, i).at == w.at
      && Sorted(w, i) == Move(AfterTake(w, i), Queue(i), to, n)
      && Weight(to, n, false) + 1 <= Weight(Queue(i), n, false)
      && to in w.at && to != Queue(i) && !to.Queue? && !to.Dev?
  {
    assert TaskOk(w, i);
    FirstFits(w, Queue(i));
  }

  lemma PlainWeight(w: World, p: Place)
    requires Shaped(w) && p in w.at && !p.Dev?
    ensures !HeldAt(w, p)
  {}

  /** After the packet is sorted in, the handler is running and all is in order. */
  lemma SortedGood(w: World, i: int)
    requires Good(w) && w.cur == i && IsHandler(i) && Ready(w.state[i])
    ensures var s := Sorted(w, i);
      && Orderly(s) && Passed(s) && s.cur == i && !s.state[i].suspended && !s.state[i].held
      && RoundsLeft(s) == RoundsLeft(w) && Work(s) <= Work(w)
  {
    hide *;
    Ids();
    GoodShaped(w);
    SortedDef(w, i);
    ReadyTakes(w.state[i]);
    PassedHere(w, i);
    if Takes(w.state[i]) {
      AfterTakeBut(w, i);
      AfterTakePassed(w, i);
      AfterTakeBits(w, i);
      TakeTotal(w, i);
      HandlerKept(w, i);
      var w1, n := AfterTake(w, i), w.info[w.at[Queue(i)][0]];
      var to := if n.kind == KIND_WORK then V1(i) else V2(i);
      MoveOrderly(w1, Queue(i), to, n);
      MoveTotal(w1, Queue(i), to, n);
      MoveFrame(w1, Queue(i), to, n, i);
      PlainWeight(w1, Queue(i));
      PlainWeight(w1, to);
      OrderlyParts(Sorted(w, i));
      WorkIs(w);
      WorkIs(Sorted(w, i));
    }
  }

  lemma HandlerSendDef(w: World, i: int)
    requires Orderly(w) && IsHandler(i)
    ensures |w.state| == NUMBER_OF_IDS && V1(i) in w.at && V2(i) in w.at
    ensures w.at[V1(i)] == [] ==> HandlerSend(w, i) == Suspend(w, i)
    ensures w.at[V1(i)] != [] ==>
      && var h := w.at[V1(i)][0];
      && h in w.info && Fits(V1(i), w.info[h])
      && var n := w.info[h];
      && (n.a1 < DATA_SIZE && w.at[V2(i)] == [] ==> HandlerSend(w, i) == Suspend(w, i))
      && (n.a1 < DATA_SIZE && w.at[V2(i)] != [] ==>
            && w.at[V2(i)][0] in w.info && 0 <= n.a1 < |n.a2|
            && Shaped(w.(info := w.info[h := n.(a1 := n.a1 + 1)]))
            && HandlerSend(w, i) == Send(w.(info := w.info[h := n.(a1 := n.a1 + 1)]), V2(i),
                                         w.info[w.at[V2(i)][0]].(a1 := n.a2[n.a1]), i)
            && w.info[w.at[V2(i)][0]].id == i + 2
            && Fits(Queue(i + 2), w.info[w.at[V2(i)][0]].(a1 := n.a2[n.a1], id := i))
            && Fits(V1(i), n.(a1 := n.a1 + 1)))
      && (n.a1 >= DATA_SIZE ==>
            && HandlerSend(w, i) == Send(w, V1(i), n, i) && n.id == ID_WORKER && Fits(Queue(ID_WORKER), n.(id := i)))
  {
    hide *;
    Ids();
    OrderlyParts(w);
    HandlerPlaces(w, i);
    HandlerFirst(w, i);
    HandlerDevice(w, i);
    if w.at[V1(i)] == [] {
      HandlerIdles(w, i);
    } else {
      var n := w.info[w.at[V1(i)][0]];
      if n.a1 >= DATA_SIZE {
        HandlerReturns(w, i);
      } else if w.at[V2(i)] == [] {
        HandlerIdles(w, i);
      } else {
        HandlerTransmits(w, i);
      }
    }
  }

  lemma HandlerPlaces(w: World, i: int)
    requires Shaped(w) && IsHandler(i)
    ensures V1(i) in w.at && V2(i) in w.at && |w.state| == NUMBER_OF_IDS
  {}

  lemma HandlerFirst(w: World, i: int)
    requires Shaped(w) && AllFit(w) && IsHandler(i)
    ensures w.at[V1(i)] != [] ==>
      && w.at[V1(i)][0] in w.info
      && var n := w.info[w.at[V1(i)][0]];
      && Fits(V1(i), n) && 0 <= n.a1 <= DATA_SIZE && |n.a2| == DATA_SIZE && n.id == ID_WORKER
      && (n.a1 < DATA_SIZE ==> Fits(V1(i), n.(a1 := n.a1 + 1)))
      && (n.a1 >= DATA_SIZE ==> n.a1 == DATA_SIZE)
  {
    FirstFits(w, V1(i));
  }

  lemma HandlerDevice(w: World, i: int)
    requires Shaped(w) && AllFit(w) && IsHandler(i)
    ensures w.at[V2(i)] != [] ==>
      && w.at[V2(i)][0] in w.info
      && w.info[w.at[V2(i)][0]].id == i + 2
      && forall letter :: Fits(Queue(i + 2), w.info[w.at[V2(i)][0]].(a1 := letter, id := i))
  {
    FirstFits(w, V2(i));
  }

  lemma HandlerIdles(w: World, i: int)
    requires Shaped(w) && AllFit(w) && IsHandler(i)
    requires w.at[V1(i)] == [] || (w.at[V1(i)][0] in w.info && w.info[w.at[V1(i)][0]].a1 < DATA_SIZE && w.at[V2(i)] == [])
    ensures |w.state| == NUMBER_OF_IDS && HandlerSend(w, i) == Suspend(w, i)
  {}

  lemma HandlerReturns(w: World, i: int)
    requires Shaped(w) && AllFit(w) && IsHandler(i) && w.at[V1(i)] != [] && w.at[V1(i)][0] in w.info
    requires Fits(V1(i), w.info[w.at[V1(i)][0]]) && w.info[w.at[V1(i)][0]].a1 >= DATA_SIZE
    ensures HandlerSend(w, i) == Send(w, V1(i), w.info[w.at[V1(i)][0]], i)
    ensures Fits(Queue(ID_WORKER), w.info[w.at[V1(i)][0]].(id := i))
  {}

  lemma HandlerTransmits(w: World, i: int)
    requires Shaped(w) && AllFit(w) && IsHandler(i) && w.at[V1(i)] != [] && w.at[V1(i)][0] in w.info
    requires Fits(V1(i), w.info[w.at[V1(i)][0]]) && w.info[w.at[V1(i)][0]].a1 < DATA_SIZE
    requires w.at[V2(i)] != [] && w.at[V2(i)][0] in w.info && w.info[w.at[V2(i)][0]].id == i + 2
    ensures var h := w.at[V1(i)][0];
      var n := w.info[h];
      && Shaped(w.(info := w.info[h := n.(a1 := n.a1 + 1)]))
      && HandlerSend(w, i) == Send(w.(info := w.info[h := n.(a1 := n.a1 + 1)]), V2(i),
                                   w.info[w.at[V2(i)][0]].(a1 := n.a2[n.a1]), i)
  {}

  /** Writing into the head of a handler's work list keeps the order. */
  lemma InfoOrderly(w: World, p: Place, n: Info)
    requires Orderly(w) && p in w.at && w.at[p] != [] && Fits(p, n)
    ensures Orderly(w.(info := w.info[w.at[p][0] := n]))
  {
    var x := w.at[p][0];
    var w' := w.(info := w.info[x := n]);
    assert x in w.at[p] && x in w.info;
    assert OnePlace(w') && AllFit(w') by {
      hide Fits;
    }
    forall k | 0 <= k < NUMBER_OF_IDS
      ensures TaskOk(w', k)
    {
      assert TaskOk(w, k);
    }
  }

  lemma InfoFrame(w: World, p: Place, n: Info)
    requires Shaped(w) && p in w.at && w.at[p] != [] && Passed(w)
    ensures var w' := w.(info := w.info[w.at[p][0] := n]);
      Shaped(w') && Passed(w') && w'.at == w.at && w'.state == w.state && w'.cur == w.cur && RoundsLeft(w') == RoundsLeft(w)
      && Active(w') == Active(w)
  {}

  lemma OtherPlace(w: World, p: Place, q: Place)
    requires OnePlace(w) && p in w.at && q in w.at && p != q && w.at[p] != [] && w.at[q] != []
    ensures w.at[p][0] != w.at[q][0]
  {
    assert w.at[p][0] in w.at[p] && w.at[q][0] in w.at[q];
  }

  lemma HandlerSendGood(w: World, i: int)
    requires Orderly(w) && Passed(w) && w.cur == i && IsHandler(i) && !w.state[i].suspended && !w.state[i].held
    ensures Good(HandlerSend(w, i)) && Lower(HandlerSend(w, i), w)
  {
    hide *;
    Ids();
    OrderlyParts(w);
    HandlerSendDef(w, i);
    GoodIntro(w);
    PassedHere(w, i);
    HandlerKept(w, i);
    TasksBut(w, V1(i));
    TasksBut(w, V2(i));
    var w' := HandlerSend(w, i);
    if w.at[V1(i)] == [] || (w.info[w.at[V1(i)][0]].a1 < DATA_SIZE && w.at[V2(i)] == []) {
      SuspendGood(w, i);
    } else {
      var h := w.at[V1(i)][0];
      var n := w.info[h];
      if n.a1 < DATA_SIZE {
        var v := w.info[w.at[V2(i)][0]];
        var n1 := n.(a1 := n.a1 + 1);
        var w1 := w.(info := w.info[h := n1]);
        InfoOrderly(w, V1(i), n1);
        InfoTotal(w, V1(i), n1);
        InfoFrame(w, V1(i), n1);
        OrderlyParts(w1);
        TasksBut(w1, V2(i));
        OtherPlace(w, V1(i), V2(i));
        PlainWeight(w, V1(i));
        PlainWeight(w1, V2(i));
        SendGood(w1, V2(i), v.(a1 := n.a2[n.a1]), i);
        SendTotal(w1, V2(i), v.(a1 := n.a2[n.a1]), i);
        LetterWeights(i, n, n1, v, v.(a1 := n.a2[n.a1]));
      } else {
        SendGood(w, V1(i), n, i);
        SendTotal(w, V1(i), n, i);
        PlainWeight(w, V1(i));
        ReturnWeights(i, n);
      }
    }
    GoodShaped(w');
    WorkIs(w);
    WorkIs(w');
    LowerWork(w', w, Work(w), Work(w'));
  }

  lemma GoodIntro(w: World)
    requires Orderly(w) && Passed(w)
    ensures Good(w)
  {}

  lemma LetterWeights(i: int, n: Info, n1: Info, v: Info, v1: Info)
    requires IsHandler(i) && Fits(V1(i), n) && n1 == n.(a1 := n.a1 + 1) && v.id == i + 2 && v1.id == i + 2
    ensures Weight(V1(i), n1, false) == Weight(V1(i), n, false) + 1
    ensures Weight(V2(i), v, false) == 6 && Weight(Queue(v1.id), v1, false) == 4
  {}

  lemma ReturnWeights(i: int, n: Info)
    requires IsHandler(i) && Fits(V1(i), n) && n.a1 >= DATA_SIZE
    ensures Weight(V1(i), n, false) == 5 && Weight(Queue(n.id), n, false) == 3
  {}

  lemma HandlerStepGood(w: World, i: int)
    requires Good(w) && w.cur == i && IsHandler(i) && Ready(w.state[i])
    ensures Orderly(Sorted(w, i))
    ensures Good(HandlerSend(Sorted(w, i), i)) && Lower(HandlerSend(Sorted(w, i), i), w)
  {
    hide *;
    Ids();
    GoodShaped(w);
    SortedGood(w, i);
    var s := Sorted(w, i);
    OrderlyParts(s);
    HandlerSendGood(s, i);
    GoodShaped(HandlerSend(s, i));
    LowerTrans(HandlerSend(s, i), s, w);
  }

  lemma LowerTrans(a: World, b: World, c: World)
    requires Shaped(a) && Shaped(b) && Shaped(c) && Lower(a, b) && RoundsLeft(b) == RoundsLeft(c) && Work(b) <= Work(c)
    ensures Lower(a, c)
  {}

  // ---- the idle task

  lemma IdleStepGood(w: World)
    requires Good(w) && w.cur == ID_IDLE && Ready(w.state[ID_IDLE])
    ensures Good(IdleStep(w)) && Lower(IdleStep(w), w)
  {
    hide *;
    Ids();
    GoodShaped(w);
    OrderlyParts(w);
    IdleDef(w);
    var w' := IdleStep(w);
    SamePlaces(w, w');
    IdleTasks(w);
    OrderlyIntro(w');
    GoodIntro(w');
    LowerRounds(w', w);
  }

  lemma IdleDef(w: World)
    requires Good(w) && w.cur == ID_IDLE && Ready(w.state[ID_IDLE])
    ensures var w' := IdleStep(w);
      && Shaped(w') && w'.at == w.at && w'.info == w.info && w'.workerTo == w.workerTo && Passed(w')
      && RoundsLeft(w') < RoundsLeft(w)
  {
    hide OnePlace;
    hide AllFit;
    assert TaskOk(w, ID_IDLE);
  }

  lemma IdleTasks(w: World)
    requires Orderly(w) && w.cur == ID_IDLE && Ready(w.state[ID_IDLE]) && Shaped(IdleStep(w))
    ensures TasksOk(IdleStep(w))
  {
    hide OnePlace;
    hide AllFit;
    assert TaskOk(w, ID_IDLE);
    forall i | 0 <= i < NUMBER_OF_IDS
      ensures TaskOk(IdleStep(w), i)
    {
      assert TaskOk(w, i);
    }
  }

  lemma OrderlyIntro(w: World)
    requires Shaped(w) && OnePlace(w) && AllFit(w) && TasksOk(w) && IsHandler(w.workerTo)
    ensures Orderly(w)
  {}

  lemma LowerRounds(w': World, w: World)
    requires Shaped(w) && Shaped(w') && RoundsLeft(w') < RoundsLeft(w)
    ensures Lower(w', w)
  {}

  // ---- every run

  /** The letter after this one, from 1 to 26 and round again. */
  ghost function NextLetter(letter: int): int {
    if letter + 1 > 26 then 1 else letter + 1
  }

  /** The `n` letters after this one. */
  ghost function Letters(letter: int, n: nat): (r: seq<int>)
    ensures |r| == n && forall k :: 0 <= k < n ==> r[k] == NthLetter(letter, k + 1)
  {
    if n == 0 then [] else Letters(letter, n - 1) + [NthLetter(letter, n)]
  }

  ghost function NthLetter(letter: int, n: nat): int {
    if n == 0 then letter else NextLetter(NthLetter(letter, n - 1))
  }

  /** One turn of `schedule`'s loop: a task that is not ready is passed, a ready one runs. */
  ghost function Step(w: World): World
    requires Good(w) && w.cur >= 0
  {
    assert w.(cur := w.cur) == w;
    if !Ready(w.state[w.cur]) then w.(cur := w.cur - 1)
    else if w.cur == ID_IDLE then IdleStep(w)
    else if w.cur == ID_WORKER then
      WorkerStep(w, Letters(w.letter, DATA_SIZE), NthLetter(w.letter, DATA_SIZE))
    else if IsHandler(w.cur) then
      SortedGood(w, w.cur);
      HandlerSend(Sorted(w, w.cur), w.cur)
    else DeviceStep(w, w.cur)
  }

  /** Every turn keeps the dispatcher in order, and brings it nearer to the end: fewer rounds of the idle
      task, or else less work, or else a task further down the list. */
  lemma StepGood(w: World)
    requires Good(w) && w.cur >= 0
    ensures Good(Step(w))
    ensures Lower(Step(w), w) || (RoundsLeft(Step(w)) == RoundsLeft(w) && Work(Step(w)) == Work(w) && Step(w).cur == w.cur - 1)
  {
    hide *;
    Ids();
    GoodShaped(w);
    StepDef(w);
    if !Ready(w.state[w.cur]) {
      PassGood(w);
    } else if w.cur == ID_IDLE {
      IdleStepGood(w);
    } else if w.cur == ID_WORKER {
      WorkerStepGood(w, Letters(w.letter, DATA_SIZE), NthLetter(w.letter, DATA_SIZE));
    } else if IsHandler(w.cur) {
      HandlerStepGood(w, w.cur);
    } else {
      DeviceStepGood(w, w.cur);
    }
  }

  lemma StepDef(w: World)
    requires Good(w) && w.cur >= 0
    ensures 0 <= w.cur < |w.state| == NUMBER_OF_IDS
    ensures !Ready(w.state[w.cur]) ==> Step(w) == w.(cur := w.cur - 1)
    ensures Ready(w.state[w.cur]) ==>
      && (w.cur == ID_IDLE ==> Step(w) == IdleStep(w))
      && (w.cur == ID_WORKER ==>
            |Letters(w.letter, DATA_SIZE)| == DATA_SIZE
            && Step(w) == WorkerStep(w, Letters(w.letter, DATA_SIZE), NthLetter(w.letter, DATA_SIZE)))
      && (IsHandler(w.cur) ==>
            Orderly(Sorted(w, w.cur)) && Shaped(Sorted(w, w.cur)) && AllFit(Sorted(w, w.cur))
            && Step(w) == HandlerSend(Sorted(w, w.cur), w.cur))
      && (IsDevice(w.cur) ==> Step(w) == DeviceStep(w, w.cur))
  {
    if Ready(w.state[w.cur]) && IsHandler(w.cur) {
      SortedGood(w, w.cur);
    }
  }

  /** A task that is held or has nothing to do is passed over. */
  lemma PassGood(w: World)
    requires Good(w) && w.cur >= 0 && !Ready(w.state[w.cur])
    ensures var w' := w.(cur := w.cur - 1);
      Good(w') && RoundsLeft(w') == RoundsLeft(w) && Work(w') == Work(w)
  {
    hide *;
    GoodShaped(w);
    OrderlyParts(w);
    var w' := w.(cur := w.cur - 1);
    PassPassed(w);
    SamePlaces(w, w');
    OrderlyIntro(w') by {
      PassTasks(w);
    }
    GoodIntro(w');
    CurTotal(w, w.cur - 1);
    WorkIs(w);
    WorkIs(w');
  }

  lemma PassPassed(w: World)
    requires Shaped(w) && Passed(w) && w.cur >= 0 && !Ready(w.state[w.cur])
    ensures var w' := w.(cur := w.cur - 1);
      Shaped(w') && Passed(w') && -1 <= w'.cur < NUMBER_OF_IDS
  {}

  lemma PassTasks(w: World)
    requires Shaped(w) && TasksOk(w) && w.cur >= 0
    ensures TasksOk(w.(cur := w.cur - 1))
  {
    var w' := w.(cur := w.cur - 1);
    forall i | 0 <= i < NUMBER_OF_IDS
      ensures TaskOk(w', i)
    {
      assert TaskOk(w, i);
    }
  }

  /** The state in which `schedule` stops. */
  ghost function Final(w: World): (r: World)
    requires Good(w)
    ensures Good(r) && r.cur < 0
    decreases RoundsLeft(w), Work(w), w.cur + 1
  {
    if w.cur < 0 then w
    else
      StepGood(w);
      Final(Step(w))
  }

  /** The state after `n` turns, if `schedule` has not stopped before. */
  ghost function After(w: World, n: nat): (r: World)
    requires Good(w)
    ensures Good(r)
    decreases n
  {
    if n == 0 || w.cur < 0 then w
    else
      StepGood(w);
      After(Step(w), n - 1)
  }

  /** `schedule` stops, whatever the counts and the packets. */
  lemma {:induction false} ScheduleEnds(w: World)
    requires Good(w)
    ensures exists n: nat :: After(w, n) == Final(w)
    decreases RoundsLeft(w), Work(w), w.cur + 1
  {
    hide Good;
    hide Step;
    hide RoundsLeft;
    hide Work;
    hide Lower;
    if w.cur < 0 {
      assert After(w, 0) == w;
    } else {
      StepGood(w);
      StepLower(w);
      ScheduleEnds(Step(w));
      var n: nat :| After(Step(w), n) == Final(Step(w));
      assert After(w, n + 1) == After(Step(w), n);
    }
  }

  lemma StepLower(w: World)
    requires Good(w) && w.cur >= 0 && Good(Step(w))
    ensures Shaped(w) && Shaped(Step(w))
    ensures RoundsLeft(Step(w)) < RoundsLeft(w)
         || (RoundsLeft(Step(w)) == RoundsLeft(w) && Work(Step(w)) < Work(w))
         || (RoundsLeft(Step(w)) == RoundsLeft(w) && Work(Step(w)) == Work(w) && Step(w).cur == w.cur - 1)
  {
    hide Step;
    hide Work;
    hide RoundsLeft;
    hide Good;
    GoodShaped(w);
    GoodShaped(Step(w));
    StepGood(w);
  }

  /** When `schedule` stops no task is ready, and the idle task is held, its rounds used up. */
  lemma FinalIdle(w: World)
    requires Good(w)
    ensures Shaped(Final(w)) && forall i :: 0 <= i < NUMBER_OF_IDS ==> !Ready(Final(w).state[i])
    ensures Final(w).state[ID_IDLE].held && Final(w).count == 0
  {
    hide Final;
    var r := Final(w);
    assert TaskOk(r, ID_IDLE);
  }

  /** At the head of the loop a ready task that is looked at has the highest priority of those ready. */
  lemma HighestPriority(w: World, n: nat, i: int)
    requires Good(w) && After(w, n).cur >= 0 && 0 <= i < NUMBER_OF_IDS
    ensures Shaped(After(w, n)) && (Ready(After(w, n).state[i]) ==> i <= After(w, n).cur)
  {
    hide After;
  }

  // ---- no packet is lost, made or turned into another kind

  ghost predicate SamePackets(w: World, w': World) {
    w'.info.Keys == w.info.Keys && forall x :: x in w.info ==> w'.info[x].kind == w.info[x].kind
  }

  lemma MovePackets(w: World, from: Place, to: Place, n: Info)
    requires from in w.at && to in w.at && w.at[from] != [] && from != to
    requires w.at[from][0] in w.info && w.info[w.at[from][0]].kind == n.kind
    ensures SamePackets(w, Move(w, from, to, n))
  {}

  lemma SendPackets(w: World, from: Place, n: Info, sender: int)
    requires Shaped(w) && from in w.at && w.at[from] != [] && 0 <= n.id < NUMBER_OF_IDS && from != Queue(n.id)
    requires 0 <= sender < NUMBER_OF_IDS && w.at[from][0] in w.info && w.info[w.at[from][0]].kind == n.kind
    ensures SamePackets(w, Send(w, from, n, sender))
  {
    MovePackets(w, from, Queue(n.id), n.(id := sender));
  }

  lemma SamePacketsTrans(a: World, b: World, c: World)
    requires SamePackets(a, b) && SamePackets(b, c)
    ensures SamePackets(a, c)
  {}

  lemma SameText(w: World, w': World)
    requires w'.info == w.info
    ensures SamePackets(w, w')
  {}

  lemma StepPackets(w: World)
    requires Good(w) && w.cur >= 0
    ensures SamePackets(w, Step(w))
  {
    hide *;
    Ids();
    GoodShaped(w);
    StepDef(w);
    if !Ready(w.state[w.cur]) {
      SameText(w, Step(w));
    } else if w.cur == ID_IDLE {
      IdleDef(w);
      SameText(w, Step(w));
    } else if w.cur == ID_WORKER {
      WorkerPackets(w, Letters(w.letter, DATA_SIZE), NthLetter(w.letter, DATA_SIZE));
    } else if IsHandler(w.cur) {
      SortedPackets(w, w.cur);
      HandlerPackets(Sorted(w, w.cur), w.cur);
      SamePacketsTrans(w, Sorted(w, w.cur), Step(w));
    } else {
      DevicePackets(w, w.cur);
    }
  }

  lemma WorkerPackets(w: World, letters: seq<int>, letter: int)
    requires Orderly(w) && |letters| == DATA_SIZE
    ensures SamePackets(w, WorkerStep(w, letters, letter))
  {
    hide *;
    Ids();
    OrderlyParts(w);
    WorkerStepDef(w, letters, letter);
    if Takes(w.state[ID_WORKER]) {
      var w1 := AfterTake(w, ID_WORKER).(workerTo := Other(w.workerTo), letter := letter);
      AfterTakeBits(w, ID_WORKER);
      SameText(w, w1);
      WorkerText(w);
      SendPackets(w1, Queue(ID_WORKER), Info(Other(w.workerTo), KIND_WORK, 0, letters), ID_WORKER);
      SamePacketsTrans(w, w1, WorkerStep(w, letters, letter));
    } else {
      SuspendText(w, ID_WORKER);
      SameText(w, WorkerStep(w, letters, letter));
    }
  }

  lemma WorkerText(w: World)
    requires Shaped(w) && AllFit(w)
    ensures w.at[Queue(ID_WORKER)] != [] ==>
      w.at[Queue(ID_WORKER)][0] in w.info && w.info[w.at[Queue(ID_WORKER)][0]].kind == KIND_WORK
  {
    FirstFits(w, Queue(ID_WORKER));
  }

  lemma SuspendText(w: World, i: int)
    requires 0 <= i < |w.state|
    ensures Suspend(w, i).info == w.info && Hold(w, i).info == w.info
  {}

  lemma SortedPackets(w: World, i: int)
    requires Orderly(w) && IsHandler(i)
    ensures SamePackets(w, Sorted(w, i))
  {
    hide *;
    Ids();
    OrderlyParts(w);
    SortedDef(w, i);
    if Takes(w.state[i]) {
      AfterTakeBits(w, i);
      var n := w.info[w.at[Queue(i)][0]];
      MovePackets(AfterTake(w, i), Queue(i), if n.kind == KIND_WORK then V1(i) else V2(i), n);
      SameText(w, AfterTake(w, i));
      SamePacketsTrans(w, AfterTake(w, i), Sorted(w, i));
    } else {
      SameText(w, Sorted(w, i));
    }
  }

  lemma HandlerPackets(w: World, i: int)
    requires Orderly(w) && IsHandler(i)
    ensures SamePackets(w, HandlerSend(w, i))
  {
    hide *;
    Ids();
    OrderlyParts(w);
    HandlerSendDef(w, i);
    if w.at[V1(i)] == [] || (w.info[w.at[V1(i)][0]].a1 < DATA_SIZE && w.at[V2(i)] == []) {
      SuspendText(w, i);
      SameText(w, HandlerSend(w, i));
    } else {
      var h := w.at[V1(i)][0];
      var n := w.info[h];
      if n.a1 < DATA_SIZE {
        var w1 := w.(info := w.info[h := n.(a1 := n.a1 + 1)]);
        OtherPlace(w, V1(i), V2(i));
        SendPackets(w1, V2(i), w.info[w.at[V2(i)][0]].(a1 := n.a2[n.a1]), i);
        LetterPackets(w, h, n.(a1 := n.a1 + 1));
        SamePacketsTrans(w, w1, HandlerSend(w, i));
      } else {
        SendPackets(w, V1(i), n, i);
      }
    }
  }

  lemma LetterPackets(w: World, h: Packet, n: Info)
    requires h in w.info && n.kind == w.info[h].kind
    ensures SamePackets(w, w.(info := w.info[h := n]))
  {}

  lemma DevicePackets(w: World, i: int)
    requires Orderly(w) && IsDevice(i)
    ensures SamePackets(w, DeviceStep(w, i))
  {
    hide *;
    Ids();
    OrderlyParts(w);
    DeviceStepDef(w, i);
    if Takes(w.state[i]) {
      AfterTakeBits(w, i);
      var w1 := Move(AfterTake(w, i), Queue(i), Dev(i), w.info[w.at[Queue(i)][0]]);
      MovePackets(AfterTake(w, i), Queue(i), Dev(i), w.info[w.at[Queue(i)][0]]);
      MoveState(AfterTake(w, i), Queue(i), Dev(i), w.info[w.at[Queue(i)][0]]);
      SameText(w, AfterTake(w, i));
      SamePacketsTrans(w, AfterTake(w, i), w1);
      SuspendText(w1, i);
      SameText(w1, DeviceStep(w, i));
      SamePacketsTrans(w, w1, DeviceStep(w, i));
    } else if w.at[Dev(i)] == [] {
      SuspendText(w, i);
      SameText(w, DeviceStep(w, i));
    } else {
      SendPackets(w, Dev(i), w.info[w.at[Dev(i)][0]], i);
    }
  }

  lemma MoveState(w: World, from: Place, to: Place, n: Info)
    requires Shaped(w) && from in w.at && to in w.at && w.at[from] != [] && from != to
    ensures Move(w, from, to, n).state == w.state && |w.state| == NUMBER_OF_IDS
  {}

  /** In every state of every run, each packet there was at the start is in exactly one place, in it
      once, and of the kind it was; and there are no others. */
  lemma {:induction false} PacketsConserved(w: World, n: nat)
    requires Good(w)
    ensures SamePackets(w, After(w, n))
    ensures forall x :: x in w.info <==> exists p :: p in After(w, n).at && x in After(w, n).at[p]
    ensures forall p, q, x :: p in After(w, n).at && q in After(w, n).at && x in After(w, n).at[p] && x in After(w, n).at[q]
              ==> p == q
    ensures forall p, k, l :: p in After(w, n).at && 0 <= k < l < |After(w, n).at[p]| ==> After(w, n).at[p][k] != After(w, n).at[p][l]
    decreases n
  {
    hide Step;
    hide Good;
    hide OnePlace;
    hide AllFit;
    if n == 0 || w.cur < 0 {
      SameText(w, w);
    } else {
      StepGood(w);
      PacketsConserved(Step(w), n - 1);
      StepPackets(w);
      SamePacketsTrans(w, Step(w), After(Step(w), n - 1));
    }
    InOnePlace(After(w, n));
  }

  lemma InOnePlace(w: World)
    requires Good(w)
    ensures forall x :: x in w.info <==> exists p :: p in w.at && x in w.at[p]
    ensures forall p, q, x :: p in w.at && q in w.at && x in w.at[p] && x in w.at[q] ==> p == q
    ensures forall p, k, l :: p in w.at && 0 <= k < l < |w.at[p]| ==> w.at[p][k] != w.at[p][l]
  {
    hide Fits;
    hide Shaped;
    hide TasksOk;
    hide Passed;
  }
}
