/** The Richards task dispatcher on its own objects: task control blocks, tasks, packets and links. */
module Richards {
  import opened RichardsPackets
  import opened RichardsModel
  import RichardsRuns
  import RichardsDispatch

  datatype Task = Idle(idle: IdleTask) | Worker(worker: WorkerTask) | Handler(handler: HandlerTask) | Device(device: DeviceTask)

  class TaskControlBlock {
    const link: TaskControlBlock?
    const id: int
    const priority: int
    const task: Task
    var queue: Packet?
    /** The state word, as its bits. */
    var state: Bits

    constructor (link: TaskControlBlock?, id: int, priority: int, queue: Packet?, task: Task)
      ensures this.link == link && this.id == id && this.priority == priority && this.queue == queue && this.task == task
      ensures state == Bits(queue != null, true, false)
    {
      this.link, this.id, this.priority, this.queue, this.task := link, id, priority, queue, task;
      state := Bits(queue != null, true, false);
    }

    /** Not ready: held, or suspended without work. */
    predicate IsHeldOrSuspended()
      reads this
    {
      state.held || state == Bits(false, true, false)
    }

    method MarkAsSuspended()
      modifies this`state
      ensures state == old(state).(suspended := true)
    {
      state := state.(suspended := true);
    }

    method MarkAsHeld()
      modifies this`state
      ensures state == old(state).(held := true)
    {
      state := state.(held := true);
    }

    method MarkAsNotHeld()
      modifies this`state
      ensures state == old(state).(held := false)
    {
      state := state.(held := false);
    }

    method SetRunning()
      modifies this`state
      ensures state == Bits(false, false, false)
    {
      state := Bits(false, false, false);
    }

    /** Runs the task, on the first packet of the queue if it was suspended; gives the task to look at next. */
    method Run(ghost s: Scene, ghost i: int) returns (next: TaskControlBlock?)
      requires s.scheduler.Runs(s, i) && s.scheduler.currentId == i && s.b[i] == this
      requires Mirrors(s) && s.off.None? && Good(s.w) && s.w.cur == i && Ready(s.w.state[i])
      modifies s.scheduler`holdCount, s.scheduler`queueCount, Parts(s.b), s.w.info.Keys
      ensures Mirrors(s.(w := Step(s.w))) && next == BlockAt(s.b, Step(s.w).cur)
      ensures s.scheduler.holdCount == old(s.scheduler.holdCount) + Held(s.w)
      ensures s.scheduler.queueCount == old(s.scheduler.queueCount) + Queued(s.w)
    {
      hide *;
      SchedulerApart(s.b, s.scheduler);
      s.scheduler.RunsNow(s, i);
      TaskKinds(s, i);
      OwnObject(s.b, i);
      var packet: Packet?, s1 := Take(s, i);
      s.scheduler.RunsIntro(s1, i);
      match task {
        case Idle(t) => next := t.Run(packet, s1, s.w);
        case Worker(t) => next := t.Run(packet, s1, s.w);
        case Handler(t) => next := t.Run(packet, s1, s.w, i);
        case Device(t) => next := t.Run(packet, s1, s.w, i);
      }
    }

    /** A suspended task with work goes on with its first packet. */
    method Take(ghost s: Scene, ghost i: int) returns (packet: Packet?, ghost s1: Scene)
      requires 0 <= i < |s.b| == NUMBER_OF_IDS && s.b[i] == this
      requires Mirrors(s) && s.off.None? && Good(s.w) && s.w.cur == i && Ready(s.w.state[i])
      modifies this`queue, this`state
      ensures Mirrors(s1) && Handed(s1, s.w, i, packet)
      ensures s1 == s.(w := s1.w, off := s1.off) && s1.w.info == s.w.info
    {
      hide *;
      SceneParts(s);
      SceneFields(s);
      TakeDef(s, i);
      if state == Bits(true, true, false) {
        packet := queue;
        TextIs(s, packet);
        NowText(packet);
        queue := packet.link;
        if queue == null {
          state := Bits(false, false, false);
        } else {
          state := Bits(true, false, false);
        }
        s1 := TakenFrom(s, Queue(i), AfterTake(s.w, i));
        TakenIs(s, Queue(i), AfterTake(s.w, i));
        HeadsNow(s, Queue(i));
        ListQueue(s, i, s.w.at[Queue(i)][1..]);
        StatesNow(s1);
        TakeDone(s, Queue(i), AfterTake(s.w, i));
        NowText(packet);
        TakenHanded(s1, s.w, i, packet);
      } else {
        packet := null;
        s1 := s;
        NotHanded(s, i);
      }
    }

    /** The packet goes to the end of this block's queue `s`; gives the task to look at next. */
    method CheckPriorityAdd(task: TaskControlBlock, packet: Packet, ghost s: seq<Packet>) returns (next: TaskControlBlock)
      requires Threaded(queue, s) && DistinctList(s) && packet !in s && packet.link == null
      modifies this`queue, this`state, packet`link, s`link
      ensures Threaded(queue, s + [packet])
      ensures state == if s == [] then old(state).(runnable := true) else old(state)
      ensures next == if s == [] && priority > task.priority then this else task
    {
      if queue == null {
        queue := packet;
        state := state.(runnable := true);
        if priority > task.priority {
          return this;
        }
      } else {
        queue := packet.AddTo(queue, s);
      }
      next := task;
    }
  }

  class IdleTask {
    const scheduler: Scheduler
    var v1: bv16
    var count: int

    constructor (scheduler: Scheduler, v1: bv16, count: int)
      ensures this.scheduler == scheduler && this.v1 == v1 && this.count == count
    {
      this.scheduler, this.v1, this.count := scheduler, v1, count;
    }

    method Run(packet: Packet?, ghost s: Scene, ghost w0: World) returns (next: TaskControlBlock?)
      requires scheduler.Runs(s, ID_IDLE) && s.b[ID_IDLE].task == Idle(this) && Mirrors(s) && Handed(s, w0, ID_IDLE, packet)
      modifies scheduler`holdCount, Parts(s.b)
      ensures Mirrors(s.(w := Step(w0), off := None)) && next == BlockAt(s.b, Step(w0).cur)
      ensures scheduler.holdCount == old(scheduler.holdCount) + Held(w0)
      ensures scheduler.queueCount == old(scheduler.queueCount) + Queued(w0)
      ensures count == old(count) - 1 && (if count == 0 then v1 == old(v1) else Shifted(old(v1), v1))
    {
      hide *;
      scheduler.RunsNow(s, ID_IDLE);
      SceneParts(s);
      SceneFields(s);
      IdleHanded(s, w0, packet);
      IdleCounts(w0);
      SchedulerApart(s.b, scheduler);
      OwnObject(s.b, ID_IDLE);
      count := count - 1;
      ghost var w1 := s.w.(count := count);
      if count == 0 {
        HeadsNowAll(s);
        FieldsDone(s, w1);
        scheduler.RunsIntro(s.(w := w1), ID_IDLE);
        next := scheduler.HoldCurrent(s.(w := w1), ID_IDLE);
      } else {
        var even := v1 & 1 == 0;
        SeedIs(v1);
        SeedShifted(v1);
        v1 := if even then v1 >> 1 else (v1 >> 1) ^ 0xD008;
        ghost var w2 := w1.(seed := v1);
        HeadsNowAll(s);
        FieldsDone(s, w2);
        scheduler.RunsIntro(s.(w := w2), ID_IDLE);
        if even {
          next := scheduler.Release(ID_DEVICE_A, s.(w := w2), ID_IDLE);
        } else {
          next := scheduler.Release(ID_DEVICE_B, s.(w := w2), ID_IDLE);
        }
      }
      assert s.(w := Step(w0), off := None) == s.(w := Step(w0));
      SceneFields(s.(w := Step(w0)));
    }
  }

  // ---- the counts

  ghost function Held(w: World): nat
    requires Good(w) && w.cur >= 0
  {
    if RichardsRuns.HoldsNow(w) then 1 else 0
  }

  ghost function Queued(w: World): nat
    requires Good(w) && w.cur >= 0
  {
    if RichardsRuns.QueuesNow(w) then 1 else 0
  }

  lemma HeldIs(w: World)
    requires Good(w) && w.cur >= 0
    ensures Held(w) == (if RichardsRuns.HoldsNow(w) then 1 else 0) && Queued(w) == if RichardsRuns.QueuesNow(w) then 1 else 0
  {}

  lemma NothingCounted(w: World)
    requires Good(w) && w.cur >= 0 && w.cur < |w.state| && !Ready(w.state[w.cur])
    ensures Held(w) == 0 && Queued(w) == 0
  {
    hide *;
    RichardsRuns.TurnShows(w);
    HeldIs(w);
  }

  lemma IdleCounts(w: World)
    requires Good(w) && w.cur == ID_IDLE && 0 <= ID_IDLE < |w.state| && Ready(w.state[ID_IDLE])
    ensures Held(w) == (if w.count == 1 then 1 else 0) && Queued(w) == 0
  {
    RichardsRuns.TurnShows(w);
    hide Good;
    hide RichardsRuns.HoldsNow;
    hide RichardsRuns.QueuesNow;
  }

  lemma WorkerCounts(s: Scene, w: World, packet: Packet?)
    requires Handed(s, w, ID_WORKER, packet)
    ensures Good(w) && w.cur == ID_WORKER >= 0 && Held(w) == 0 && Queued(w) == if packet == null then 0 else 1
  {
    RichardsRuns.TurnShows(w);
    hide Good;
    hide RichardsRuns.HoldsNow;
    hide RichardsRuns.QueuesNow;
  }

  lemma DeviceCounts(s: Scene, w: World, i: int, packet: Packet?)
    requires Handed(s, w, i, packet) && IsDevice(i)
    ensures Good(w) && w.cur == i >= 0 && Dev(i) in w.at
    ensures Held(w) == (if packet == null then 0 else 1)
    ensures Queued(w) == if packet == null && w.at[Dev(i)] != [] then 1 else 0
  {
    RichardsRuns.TurnShows(w);
    assert IsPlace(Dev(i)) && Dev(i) in w.at;
    hide Good;
    hide RichardsRuns.HoldsNow;
    hide RichardsRuns.QueuesNow;
  }

  lemma HandlerCounts(s: Scene, w: World, i: int, packet: Packet?)
    requires Handed(s, w, i, packet) && IsHandler(i)
    ensures Good(w) && w.cur == i >= 0 && Orderly(w) && Held(w) == 0
    ensures Queued(w) == if RichardsDispatch.HandlerPosts(Sorted(w, i), i) then 1 else 0
  {
    RichardsRuns.TurnShows(w);
    GoodShaped(w);
    hide Good;
    hide Orderly;
    hide RichardsRuns.HoldsNow;
    hide RichardsRuns.QueuesNow;
    hide RichardsDispatch.HandlerPosts;
    hide Sorted;
  }

  lemma SeedIs(v: bv16)
    ensures NextSeed(v) == if v & 1 == 0 then v >> 1 else (v >> 1) ^ 0xD008
  {}

  class DeviceTask {
    const scheduler: Scheduler
    var v1: Packet?

    constructor (scheduler: Scheduler)
      ensures this.scheduler == scheduler && v1 == null
    {
      this.scheduler, v1 := scheduler, null;
    }

    method Run(packet: Packet?, ghost s: Scene, ghost w0: World, ghost i: int) returns (next: TaskControlBlock?)
      requires IsDevice(i) && scheduler.Runs(s, i) && scheduler.currentId == i && s.b[i].task == Device(this)
      requires Mirrors(s) && Handed(s, w0, i, packet)
      modifies scheduler`holdCount, scheduler`queueCount, Parts(s.b), s.w.info.Keys
      ensures Mirrors(s.(w := Step(w0), off := None)) && next == BlockAt(s.b, Step(w0).cur)
      ensures scheduler.holdCount == old(scheduler.holdCount) + Held(w0)
      ensures scheduler.queueCount == old(scheduler.queueCount) + Queued(w0)
    {
      hide *;
      scheduler.RunsNow(s, i);
      SceneParts(s);
      SceneFields(s);
      DeviceHanded(s, w0, i, packet);
      DeviceCounts(s, w0, i, packet);
      SchedulerApart(s.b, scheduler);
      DeviceSlot(s, i);
      OwnObject(s.b, i);
      OtherTasks(s, i);
      if packet == null {
        if v1 == null {
          scheduler.RunsIntro(s, i);
          next := scheduler.SuspendCurrent(s, i);
          return;
        }
        var v := v1;
        TextIs(s, v);
        NowText(v);
        v1 := null;
        HeadsNow(s, Dev(i));
        SlotEmpty(s, i);
        ghost var s' := TakenFrom(s, Dev(i), s.w);
        TakenIs(s, Dev(i), s.w);
        StatesNow(s');
        TakeDone(s, Dev(i), s.w);
        scheduler.RunsIntro(s', i);
        NowText(v);
        next := scheduler.QueuePacket(v, s', i);
      } else {
        v1 := packet;
        HeadsNow(s, Dev(i));
        SlotFilled(s, i, packet);
        ghost var s' := PutDown(s, packet, Dev(i));
        PutDownIs(s, packet, Dev(i));
        StatesNow(s');
        ArriveDone(s, packet, Dev(i));
        scheduler.RunsIntro(s', i);
        next := scheduler.HoldCurrent(s', i);
      }
    }
  }

  class WorkerTask {
    const scheduler: Scheduler
    var v1: int
    var v2: int

    constructor (scheduler: Scheduler, v1: int, v2: int)
      ensures this.scheduler == scheduler && this.v1 == v1 && this.v2 == v2
    {
      this.scheduler, this.v1, this.v2 := scheduler, v1, v2;
    }

    method Run(packet: Packet?, ghost s: Scene, ghost w0: World) returns (next: TaskControlBlock?)
      requires scheduler.Runs(s, ID_WORKER) && scheduler.currentId == ID_WORKER && s.b[ID_WORKER].task == Worker(this)
      requires Mirrors(s) && Handed(s, w0, ID_WORKER, packet)
      modifies scheduler`queueCount, Parts(s.b), s.w.info.Keys
      ensures Mirrors(s.(w := Step(w0), off := None)) && next == BlockAt(s.b, Step(w0).cur)
      ensures scheduler.holdCount == old(scheduler.holdCount) + Held(w0)
      ensures scheduler.queueCount == old(scheduler.queueCount) + Queued(w0)
    {
      hide *;
      scheduler.RunsNow(s, ID_WORKER);
      SceneParts(s);
      SceneFields(s);
      WorkerHanded(s, w0, packet);
      WorkerCounts(s, w0, packet);
      SchedulerApart(s.b, scheduler);
      OwnObject(s.b, ID_WORKER);
      if packet == null {
        scheduler.RunsIntro(s, ID_WORKER);
        next := scheduler.SuspendCurrent(s, ID_WORKER);
        return;
      }
      if v1 == ID_HANDLER_A {
        v1 := ID_HANDLER_B;
      } else {
        v1 := ID_HANDLER_A;
      }
      packet.id := v1;
      packet.a1 := 0;
      WriteLetters(packet);
      ghost var w1 := s.w.(workerTo := v1, letter := v2);
      HeadsNowAll(s);
      FieldsDone(s, w1);
      scheduler.RunsIntro(s.(w := w1), ID_WORKER);
      NowText(packet);
      next := scheduler.QueuePacket(packet, s.(w := w1), ID_WORKER);
    }

    /** The next letters go into the packet. */
    method WriteLetters(packet: Packet)
      requires |packet.a2| == DATA_SIZE
      modifies this`v2, packet`a2
      ensures v2 == NthLetter(old(v2), DATA_SIZE) && packet.a2 == Letters(old(v2), DATA_SIZE)
    {
      hide *;
      var i := 0;
      NthNext(v2, 0);
      while i < DATA_SIZE
        invariant 0 <= i <= DATA_SIZE == |packet.a2|
        invariant v2 == NthLetter(old(v2), i)
        invariant forall k :: 0 <= k < i ==> packet.a2[k] == Letters(old(v2), DATA_SIZE)[k]
      {
        NthNext(old(v2), i);
        v2 := v2 + 1;
        if v2 > 26 {
          v2 := 1;
        }
        packet.a2 := packet.a2[i := v2];
        i := i + 1;
      }
      assert packet.a2 == Letters(old(v2), DATA_SIZE);
    }
  }

  class HandlerTask {
    const scheduler: Scheduler
    var v1: Packet?
    var v2: Packet?

    constructor (scheduler: Scheduler)
      ensures this.scheduler == scheduler && v1 == null && v2 == null
    {
      this.scheduler, v1, v2 := scheduler, null, null;
    }

    method Run(packet: Packet?, ghost s: Scene, ghost w0: World, ghost i: int) returns (next: TaskControlBlock?)
      requires IsHandler(i) && scheduler.Runs(s, i) && scheduler.currentId == i && s.b[i].task == Handler(this)
      requires Mirrors(s) && Handed(s, w0, i, packet)
      modifies scheduler`queueCount, Parts(s.b), s.w.info.Keys
      ensures Mirrors(s.(w := Step(w0), off := None)) && next == BlockAt(s.b, Step(w0).cur)
      ensures scheduler.holdCount == old(scheduler.holdCount) + Held(w0)
      ensures scheduler.queueCount == old(scheduler.queueCount) + Queued(w0)
    {
      hide *;
      scheduler.RunsNow(s, i);
      HandlerHanded(s, w0, i, packet);
      HandlerCounts(s, w0, i, packet);
      SchedulerApart(s.b, scheduler);
      OwnObject(s.b, i);
      ghost var u := Sorted(w0, i);
      if packet != null {
        Keep(packet, s, w0, i);
      }
      scheduler.RunsIntro(s.(w := u, off := None), i);
      next := Serve(s.(w := u, off := None), i);
    }

    /** A packet goes to the end of the list of its kind. */
    method Keep(packet: Packet, ghost s: Scene, ghost w0: World, ghost i: int)
      requires IsHandler(i) && scheduler.Runs(s, i) && s.b[i].task == Handler(this) && Mirrors(s) && Handed(s, w0, i, packet)
      modifies this, s.w.info.Keys
      ensures Mirrors(s.(w := Sorted(w0, i), off := None))
    {
      hide *;
      if packet.kind == KIND_WORK {
        KeepWork(packet, s, w0, i);
      } else {
        KeepDevice(packet, s, w0, i);
      }
    }

    method KeepWork(packet: Packet, ghost s: Scene, ghost w0: World, ghost i: int)
      requires IsHandler(i) && scheduler.Runs(s, i) && s.b[i].task == Handler(this) && Mirrors(s) && Handed(s, w0, i, packet)
      requires packet.kind == KIND_WORK
      modifies this, s.w.info.Keys
      ensures Mirrors(s.(w := Sorted(w0, i), off := None))
    {
      hide *;
      scheduler.RunsNow(s, i);
      SceneParts(s);
      HandlerHanded(s, w0, i, packet);
      HandlerLists(s, i);
      OtherTasks(s, i);
      NowText(packet);
      v1 := packet.AddTo(v1, s.w.at[V1(i)]);
      HeadsNow(s, V1(i));
      ListOne(s, i, s.w.at[V1(i)] + [packet]);
      KeepDone(s, packet, V1(i));
    }

    method KeepDevice(packet: Packet, ghost s: Scene, ghost w0: World, ghost i: int)
      requires IsHandler(i) && scheduler.Runs(s, i) && s.b[i].task == Handler(this) && Mirrors(s) && Handed(s, w0, i, packet)
      requires packet.kind != KIND_WORK
      modifies this, s.w.info.Keys
      ensures Mirrors(s.(w := Sorted(w0, i), off := None))
    {
      hide *;
      scheduler.RunsNow(s, i);
      SceneParts(s);
      HandlerHanded(s, w0, i, packet);
      HandlerLists(s, i);
      OtherTasks(s, i);
      NowText(packet);
      v2 := packet.AddTo(v2, s.w.at[V2(i)]);
      HeadsNow(s, V2(i));
      ListTwo(s, i, s.w.at[V2(i)] + [packet]);
      KeepDone(s, packet, V2(i));
    }

    /** What can be done with the packets at hand: a letter goes out with a device packet, or a work packet
        with no more letters goes back. */
    method Serve(ghost s: Scene, ghost i: int) returns (next: TaskControlBlock?)
      requires IsHandler(i) && scheduler.Runs(s, i) && scheduler.currentId == i && s.b[i].task == Handler(this)
      requires Mirrors(s) && s.off.None? && Orderly(s.w)
      modifies scheduler`queueCount, Parts(s.b), s.w.info.Keys
      ensures Mirrors(s.(w := HandlerSend(s.w, i))) && next == BlockAt(s.b, HandlerSend(s.w, i).cur)
      ensures scheduler.queueCount == old(scheduler.queueCount) + if RichardsDispatch.HandlerPosts(s.w, i) then 1 else 0
    {
      hide *;
      SchedulerApart(s.b, scheduler);
      RichardsDispatch.HandlerPostsIs(s.w, i);
      scheduler.RunsNow(s, i);
      SceneParts(s);
      SceneFields(s);
      HandlerLists(s, i);
      OtherTasks(s, i);
      OwnObject(s.b, i);
      ServeDef(s, i);
      if v1 != null {
        TextIs(s, v1);
        NowText(v1);
        var count := v1.a1;
        if count < DATA_SIZE {
          if v2 != null {
            next := SendLetter(count, s, i);
            return;
          }
        } else {
          next := SendBack(s, i);
          return;
        }
      }
      scheduler.RunsIntro(s, i);
      next := scheduler.SuspendCurrent(s, i);
    }

    method SendLetter(count: int, ghost s: Scene, ghost i: int) returns (next: TaskControlBlock?)
      requires IsHandler(i) && scheduler.Runs(s, i) && scheduler.currentId == i && s.b[i].task == Handler(this)
      requires Mirrors(s) && s.off.None? && Orderly(s.w) && v1 != null && v2 != null && v1.a1 == count < DATA_SIZE
      modifies scheduler`queueCount, Parts(s.b), s.w.info.Keys
      ensures Mirrors(s.(w := HandlerSend(s.w, i))) && next == BlockAt(s.b, HandlerSend(s.w, i).cur)
      ensures scheduler.queueCount == old(scheduler.queueCount) + 1
    {
      hide *;
      SchedulerApart(s.b, scheduler);
      scheduler.RunsNow(s, i);
      SceneParts(s);
      SceneFields(s);
      HandlerLists(s, i);
      OtherTasks(s, i);
      OwnObject(s.b, i);
      ServeDef(s, i);
      TextIs(s, v1);
      NowText(v1);
      var v := v2;
      TextIs(s, v);
      NowText(v);
      v2 := v2.link;
      TailList(s.w.at[V2(i)]);
      ListTwo(s, i, s.w.at[V2(i)][1..]);
      HeadsNow(s, V2(i));
      ghost var s1 := TakenFrom(s, V2(i), s.w);
      TakenIs(s, V2(i), s.w);
      StatesNow(s1);
      TakeDone(s, V2(i), s.w);
      label Letter:
      v.a1 := v1.a2[count];
      v1.a1 := count + 1;
      NowText(v1);
      NowText(v);
      HeadsNowAll@Letter(s1);
      StatesNow(s1);
      LetterDone@Letter(s1, v1, Text(v1));
      ghost var s2 := s1.(w := s1.w.(info := s1.w.info[v1 := Text(v1)]));
      scheduler.RunsIntro(s2, i);
      next := scheduler.QueuePacket(v, s2, i);
    }

    method SendBack(ghost s: Scene, ghost i: int) returns (next: TaskControlBlock?)
      requires IsHandler(i) && scheduler.Runs(s, i) && scheduler.currentId == i && s.b[i].task == Handler(this)
      requires Mirrors(s) && s.off.None? && Orderly(s.w) && v1 != null && v1.a1 >= DATA_SIZE
      modifies scheduler`queueCount, Parts(s.b), s.w.info.Keys
      ensures Mirrors(s.(w := HandlerSend(s.w, i))) && next == BlockAt(s.b, HandlerSend(s.w, i).cur)
      ensures scheduler.queueCount == old(scheduler.queueCount) + 1
    {
      hide *;
      SchedulerApart(s.b, scheduler);
      scheduler.RunsNow(s, i);
      SceneParts(s);
      SceneFields(s);
      HandlerLists(s, i);
      OtherTasks(s, i);
      OwnObject(s.b, i);
      ServeDef(s, i);
      TextIs(s, v1);
      NowText(v1);
      var v := v1;
      v1 := v1.link;
      TailList(s.w.at[V1(i)]);
      ListOne(s, i, s.w.at[V1(i)][1..]);
      HeadsNow(s, V1(i));
      ghost var s1 := TakenFrom(s, V1(i), s.w);
      TakenIs(s, V1(i), s.w);
      StatesNow(s1);
      TakeDone(s, V1(i), s.w);
      scheduler.RunsIntro(s1, i);
      NowText(v);
      next := scheduler.QueuePacket(v, s1, i);
    }
  }

  class Scheduler {
    var queueCount: int
    var holdCount: int
    var blocks: seq<TaskControlBlock?>
    var list: TaskControlBlock?
    var currentTcb: TaskControlBlock?
    var currentId: int

    constructor ()
      ensures blocks == seq(NUMBER_OF_IDS, _ => null) && list == null && currentTcb == null
      ensures queueCount == 0 && holdCount == 0
    {
      queueCount, holdCount, blocks, list, currentTcb, currentId := 0, 0, seq(NUMBER_OF_IDS, _ => null), null, null, 0;
    }

    // ---- making the tasks

    method AddTask(id: int, priority: int, queue: Packet?, task: Task)
      requires 0 <= id < |blocks|
      modifies this`blocks, this`list, this`currentTcb
      ensures list != null && fresh(list) && currentTcb == list && blocks == old(blocks)[id := list]
      ensures list.link == old(list) && list.id == id && list.priority == priority && list.queue == queue && list.task == task
      ensures list.state == Bits(queue != null, true, false)
    {
      currentTcb := new TaskControlBlock(list, id, priority, queue, task);
      list := currentTcb;
      blocks := blocks[id := currentTcb];
    }

    method AddRunningTask(id: int, priority: int, queue: Packet?, task: Task)
      requires 0 <= id < |blocks|
      modifies this`blocks, this`list, this`currentTcb
      ensures list != null && fresh(list) && currentTcb == list && blocks == old(blocks)[id := list]
      ensures list.link == old(list) && list.id == id && list.priority == priority && list.queue == queue && list.task == task
      ensures list.state == Bits(false, false, false)
    {
      AddTask(id, priority, queue, task);
      currentTcb.SetRunning();
    }

    method AddIdleTask(id: int, priority: int, queue: Packet?, count: int)
      requires 0 <= id < |blocks|
      modifies this`blocks, this`list, this`currentTcb
      ensures list != null && fresh(list) && currentTcb == list && blocks == old(blocks)[id := list]
      ensures list.link == old(list) && list.id == id && list.priority == priority && list.queue == queue
      ensures list.state == Bits(false, false, false)
      ensures list.task.Idle? && list.task.idle.scheduler == this && list.task.idle.v1 == 1 && list.task.idle.count == count
      ensures fresh(list.task.idle)
    {
      var task := new IdleTask(this, 1, count);
      AddRunningTask(id, priority, queue, Idle(task));
    }

    method AddWorkerTask(id: int, priority: int, queue: Packet?)
      requires 0 <= id < |blocks|
      modifies this`blocks, this`list, this`currentTcb
      ensures list != null && fresh(list) && currentTcb == list && blocks == old(blocks)[id := list]
      ensures list.link == old(list) && list.id == id && list.priority == priority && list.queue == queue
      ensures list.state == Bits(queue != null, true, false)
      ensures list.task.Worker? && list.task.worker.scheduler == this
      ensures list.task.worker.v1 == ID_HANDLER_A && list.task.worker.v2 == 0 && fresh(list.task.worker)
    {
      var task := new WorkerTask(this, ID_HANDLER_A, 0);
      AddTask(id, priority, queue, Worker(task));
    }

    method AddHandlerTask(id: int, priority: int, queue: Packet?)
      requires 0 <= id < |blocks|
      modifies this`blocks, this`list, this`currentTcb
      ensures list != null && fresh(list) && currentTcb == list && blocks == old(blocks)[id := list]
      ensures list.link == old(list) && list.id == id && list.priority == priority && list.queue == queue
      ensures list.state == Bits(queue != null, true, false)
      ensures list.task.Handler? && list.task.handler.scheduler == this
      ensures list.task.handler.v1 == null && list.task.handler.v2 == null && fresh(list.task.handler)
    {
      var task := new HandlerTask(this);
      AddTask(id, priority, queue, Handler(task));
    }

    method AddDeviceTask(id: int, priority: int, queue: Packet?)
      requires 0 <= id < |blocks|
      modifies this`blocks, this`list, this`currentTcb
      ensures list != null && fresh(list) && currentTcb == list && blocks == old(blocks)[id := list]
      ensures list.link == old(list) && list.id == id && list.priority == priority && list.queue == queue
      ensures list.state == Bits(queue != null, true, false)
      ensures list.task.Device? && list.task.device.scheduler == this && list.task.device.v1 == null && fresh(list.task.device)
    {
      var task := new DeviceTask(this);
      AddTask(id, priority, queue, Device(task));
    }

    // ---- what tasks ask of the scheduler

    /** Task `i` of the scene is the current one. */
    ghost predicate Runs(s: Scene, i: int)
      reads this`blocks, this`currentTcb
    {
      s.scheduler == this && 0 <= i < |s.b| == NUMBER_OF_IDS && blocks == s.b && currentTcb == s.b[i]
    }

    /** The current task is not run again until it has work. */
    method SuspendCurrent(ghost s: Scene, ghost i: int) returns (next: TaskControlBlock?)
      requires Mirrors(s) && s.off.None? && Runs(s, i)
      modifies Parts(s.b)
      ensures Mirrors(s.(w := Suspend(s.w, i))) && next == BlockAt(s.b, Suspend(s.w, i).cur)
    {
      hide *;
      RunsNow(s, i);
      SceneParts(s);
      SuspendedWorld(s, i);
      currentTcb.MarkAsSuspended();
      next := currentTcb;
      TasksNow(s.b);
      OnlyStatesNow(s);
      StateSet(s, Suspend(s.w, i), i);
    }

    /** The current task is not run again until it is released. */
    method HoldCurrent(ghost s: Scene, ghost i: int) returns (next: TaskControlBlock?)
      requires Mirrors(s) && s.off.None? && Runs(s, i)
      modifies this`holdCount, Parts(s.b)
      ensures Mirrors(s.(w := Hold(s.w, i))) && next == BlockAt(s.b, Hold(s.w, i).cur)
      ensures holdCount == old(holdCount) + 1
    {
      hide *;
      RunsNow(s, i);
      SceneParts(s);
      SuspendedWorld(s, i);
      holdCount := holdCount + 1;
      currentTcb.MarkAsHeld();
      next := currentTcb.link;
      TasksNow(s.b);
      OnlyStatesNow(s);
      StateSet(s, Hold(s.w, i), i);
    }

    /** Task `id` may run again; of the two, the one of higher priority is looked at next. */
    method Release(id: int, ghost s: Scene, ghost i: int) returns (next: TaskControlBlock?)
      requires Mirrors(s) && s.off.None? && Runs(s, i) && 0 <= id < NUMBER_OF_IDS
      modifies Parts(s.b)
      ensures Mirrors(s.(w := RichardsModel.Release(s.w, id, i))) && next == BlockAt(s.b, RichardsModel.Release(s.w, id, i).cur)
    {
      hide *;
      RunsNow(s, i);
      SceneParts(s);
      ReleasedWorld(s, id, i);
      var tcb := blocks[id];
      if tcb == null {
        assert false;
      }
      tcb.MarkAsNotHeld();
      next := if tcb.priority > currentTcb.priority then tcb else currentTcb;
      TasksNow(s.b);
      OnlyStatesNow(s);
      StateSet(s, RichardsModel.Release(s.w, id, i), id);
    }

    /** The packet taken off goes to the task that it names, and names the current task from then on. */
    method QueuePacket(packet: Packet, ghost s: Scene, ghost i: int) returns (next: TaskControlBlock?)
      requires Mirrors(s) && Runs(s, i) && currentId == i && Departs(s, packet, packet.id)
      modifies this`queueCount, Parts(s.b), s.w.info.Keys
      ensures var w' := Send(s.w, s.off.from, old(Text(packet)), i);
        Mirrors(s.(w := w', off := None)) && next == BlockAt(s.b, w'.cur)
      ensures queueCount == old(queueCount) + 1
    {
      hide *;
      RunsNow(s, i);
      SceneParts(s);
      ghost var dest := packet.id;
      DepartsNow(s, packet, dest);
      ghost var l := s.w.at[Queue(dest)];
      var t := blocks[packet.id];
      if t == null {
        assert false;
      }
      queueCount := queueCount + 1;
      packet.link := null;
      packet.id := currentId;
      ThreadedKept(l);
      next := t.CheckPriorityAdd(currentTcb, packet, l);
      OldText(packet);
      TasksNow(s.b);
      SendDone(s, packet, old(Text(packet)), i);
      BlockIs(s.b, i);
      BlockIs(s.b, dest);
    }

    /** Runs the tasks, the one looked at if it is ready, until the list comes to its end. */
    method Schedule(ghost s: Scene) returns (ghost turns: nat)
      requires Mirrors(s) && s.off.None? && Good(s.w) && s.w.cur == ID_DEVICE_B
      requires s.scheduler == this && blocks == s.b && list == BlockAt(s.b, ID_DEVICE_B)
      modifies this, Parts(s.b), s.w.info.Keys
      ensures Mirrors(s.(w := Final(s.w))) && currentTcb == null && blocks == s.b
      ensures Final(s.w) == After(s.w, turns) && holdCount == old(holdCount) + RichardsRuns.Holdings(s.w, turns)
      ensures queueCount == old(queueCount) + RichardsRuns.Queueings(s.w, turns)
    {
      hide *;
      SchedulerApart(s.b, this);
      currentTcb := list;
      ghost var w := s.w;
      turns := 0;
      RichardsRuns.CountsNext(s.w, 0);
      RichardsRuns.AfterNone(s.w);
      MirrorsSame(s);
      while currentTcb != null
        invariant Good(w) && Final(w) == Final(s.w) && w.info.Keys == s.w.info.Keys
        invariant Mirrors(s.(w := w)) && blocks == s.b && currentTcb == BlockAt(s.b, w.cur)
        invariant w == After(s.w, turns) && holdCount == old(holdCount) + RichardsRuns.Holdings(s.w, turns)
        invariant queueCount == old(queueCount) + RichardsRuns.Queueings(s.w, turns)
        decreases Measure(w).0, Measure(w).1, Measure(w).2
      {
        SceneParts(s.(w := w));
        SchedulerApart(s.b, this);
        CurrentBlock(s.b, w);
        FinalStep(w);
        ghost var i := w.cur;
        RunsIntro(s.(w := w), i);
        var waits := currentTcb.IsHeldOrSuspended();
        WaitsOrReady(currentTcb);
        RichardsRuns.CountsNext(s.w, turns);
        HeldIs(w);
        if waits {
          NothingCounted(w);
          currentTcb := currentTcb.link;
          CurScene(s, w);
        } else {
          currentId := currentTcb.id;
          RunsIntro(s.(w := w), i);
          currentTcb := currentTcb.Run(s.(w := w), i);
        }
        w := Step(w);
        turns := turns + 1;
      }
      SceneParts(s.(w := w));
      NoBlock(s.b, w);
    }

    lemma RunsIntro(s: Scene, i: int)
      requires 0 <= i < |s.b| == NUMBER_OF_IDS && blocks == s.b && currentTcb == s.b[i] && s.scheduler == this
      ensures Runs(s, i)
    {}

    lemma RunsNow(s: Scene, i: int)
      requires Runs(s, i)
      ensures NUMBER_OF_IDS == 6
      ensures 0 <= i < |s.b| == NUMBER_OF_IDS && blocks == s.b && currentTcb == s.b[i] && s.scheduler == this
    {}
  }

  // ---- what the objects look like

  datatype Taken = None | Some(from: Place)

  /** The scheduler and its blocks, and the value that they and the packets stand for; `off` is the place
      whose first packet has been taken off its worklist, and may say anything. */
  datatype Scene = Scene(scheduler: Scheduler, b: seq<TaskControlBlock>, w: World, off: Taken)

  /** The block of task `i`, and no block after the last. */
  ghost function BlockAt(b: seq<TaskControlBlock>, i: int): TaskControlBlock? {
    if 0 <= i < |b| then b[i] else null
  }

  ghost predicate BlockOk(scheduler: Scheduler, b: seq<TaskControlBlock>, i: int)
    requires 0 <= i < |b|
  {
    && b[i].id == i && b[i].priority == 1000 * i && b[i].link == BlockAt(b, i - 1)
    && (i == ID_IDLE ==> b[i].task.Idle? && b[i].task.idle.scheduler == scheduler)
    && (i == ID_WORKER ==> b[i].task.Worker? && b[i].task.worker.scheduler == scheduler)
    && (IsHandler(i) ==> b[i].task.Handler? && b[i].task.handler.scheduler == scheduler)
    && (IsDevice(i) ==> b[i].task.Device? && b[i].task.device.scheduler == scheduler)
  }

  /** The six blocks, linked from task 5 down to task 0, each with its own task. */
  ghost predicate Built(scheduler: Scheduler, b: seq<TaskControlBlock>) {
    && |b| == NUMBER_OF_IDS
    && (forall i :: 0 <= i < NUMBER_OF_IDS ==> BlockOk(scheduler, b, i))
    && b[ID_HANDLER_A].task != b[ID_HANDLER_B].task
    && b[ID_DEVICE_A].task != b[ID_DEVICE_B].task
  }

  ghost function TaskObject(t: Task): object {
    match t
    case Idle(t) => t
    case Worker(t) => t
    case Handler(t) => t
    case Device(t) => t
  }

  /** The blocks and their tasks. */
  ghost function Parts(b: seq<TaskControlBlock>): (r: set<object>)
    ensures forall i :: 0 <= i < |b| ==> b[i] in r && TaskObject(b[i].task) in r
  {
    (set i | 0 <= i < |b| :: b[i]) + (set i | 0 <= i < |b| :: TaskObject(b[i].task))
  }

  /** The first packet of a place. */
  ghost function Head(s: Scene, p: Place): Packet?
    requires Built(s.scheduler, s.b) && IsPlace(p)
    reads Parts(s.b)
  {
    assert BlockOk(s.scheduler, s.b, p.id) && TaskObject(s.b[p.id].task) in Parts(s.b);
    match p
    case Queue(i) => s.b[i].queue
    case V1(i) => s.b[i].task.handler.v1
    case V2(i) => s.b[i].task.handler.v2
    case Dev(i) => s.b[i].task.device.v1
  }

  ghost predicate ListAt(s: Scene, p: Place, l: seq<Packet>)
    requires Built(s.scheduler, s.b) && IsPlace(p)
    reads Parts(s.b), l
  {
    if p.Dev? then Head(s, p) == (if l == [] then null else l[0]) else Threaded(Head(s, p), l)
  }

  ghost predicate Within(at: map<Place, seq<Packet>>, packets: set<Packet>) {
    (forall p :: p in at <==> IsPlace(p)) && forall p, x :: p in at && x in at[p] ==> x in packets
  }

  ghost predicate TakenOk(s: Scene) {
    s.off.Some? ==> s.off.from in s.w.at && s.w.at[s.off.from] != [] && s.w.at[s.off.from][0] in s.w.info
  }

  /** The packet that was taken off. */
  ghost function Out(s: Scene): Packet?
    requires TakenOk(s)
  {
    if s.off.None? then null else s.w.at[s.off.from][0]
  }

  /** What is left in the places. */
  ghost function Left(s: Scene): map<Place, seq<Packet>>
    requires TakenOk(s)
  {
    if s.off.None? then s.w.at else s.w.at[s.off.from := s.w.at[s.off.from][1..]]
  }

  /** The worklists hold these packets. */
  ghost predicate Lists(s: Scene)
    requires Built(s.scheduler, s.b) && TakenOk(s) && Within(Left(s), s.w.info.Keys)
    reads Parts(s.b), s.w.info.Keys
  {
    forall p :: p in Left(s) ==> ListAt(s, p, Left(s)[p])
  }

  ghost predicate StateOk(s: Scene, i: int)
    requires Built(s.scheduler, s.b) && 0 <= i < NUMBER_OF_IDS == |s.w.state|
    reads Parts(s.b)
  {
    assert BlockOk(s.scheduler, s.b, i) && TaskObject(s.b[i].task) in Parts(s.b);
    && s.b[i].state == s.w.state[i]
    && (i == ID_IDLE ==> s.b[i].task.idle.count == s.w.count && s.b[i].task.idle.v1 == s.w.seed)
    && (i == ID_WORKER ==> s.b[i].task.worker.v1 == s.w.workerTo && s.b[i].task.worker.v2 == s.w.letter)
  }

  /** The blocks have these states, the tasks these fields. */
  ghost predicate States(s: Scene)
    requires Built(s.scheduler, s.b)
    reads Parts(s.b)
  {
    |s.w.state| == NUMBER_OF_IDS && forall i :: 0 <= i < NUMBER_OF_IDS ==> StateOk(s, i)
  }

  ghost function Text(x: Packet): Info
    reads x
  {
    Info(x.id, x.kind, x.a1, x.a2)
  }

  /** The packets, but for one, say this. */
  ghost predicate Texts(info: map<Packet, Info>, out: Packet?)
    reads info.Keys
  {
    forall x :: x in info && x != out ==> info[x] == Text(x)
  }

  /** The objects are as the scene says. */
  ghost predicate Mirrors(s: Scene)
    reads Parts(s.b), s.w.info.Keys
  {
    && Built(s.scheduler, s.b) && TakenOk(s)
    && States(s)
    && Within(Left(s), s.w.info.Keys) && Lists(s)
    && Texts(s.w.info, Out(s))
  }

  lemma SceneParts(s: Scene)
    requires Mirrors(s)
    ensures Built(s.scheduler, s.b) && |s.b| == NUMBER_OF_IDS && |s.w.state| == NUMBER_OF_IDS
    ensures forall k :: 0 <= k < NUMBER_OF_IDS ==>
      s.b[k].id == k && s.b[k].priority == 1000 * k && s.b[k].state == s.w.state[k] && s.b[k].link == BlockAt(s.b, k - 1)
  {
    forall k | 0 <= k < NUMBER_OF_IDS
      ensures BlockOk(s.scheduler, s.b, k) && s.b[k].state == s.w.state[k]
    {
      assert StateOk(s, k);
    }
  }

  lemma SuspendedWorld(s: Scene, i: int)
    requires Mirrors(s) && 0 <= i < NUMBER_OF_IDS
    ensures |s.b| == NUMBER_OF_IDS == |s.w.state| && BlockAt(s.b, i) == s.b[i]
    ensures Suspend(s.w, i) == s.w.(state := s.w.state[i := s.w.state[i].(suspended := true)], cur := i)
    ensures Hold(s.w, i) == s.w.(state := s.w.state[i := s.w.state[i].(held := true)], cur := i - 1)
  {}

  lemma ReleasedWorld(s: Scene, id: int, i: int)
    requires Mirrors(s) && 0 <= i < NUMBER_OF_IDS && 0 <= id < NUMBER_OF_IDS
    ensures |s.b| == NUMBER_OF_IDS == |s.w.state| && BlockAt(s.b, i) == s.b[i] && BlockAt(s.b, id) == s.b[id]
    ensures Release(s.w, id, i)
         == s.w.(state := s.w.state[id := s.w.state[id].(held := false)], cur := if id > i then id else i)
  {}

  // ---- what a change leaves alone

  /** The fields of a task are as they were. */
  twostate predicate TaskSame(t: Task)
    reads TaskObject(t)
  {
    match t
    case Idle(t) => t.v1 == old(t.v1) && t.count == old(t.count)
    case Worker(t) => t.v1 == old(t.v1) && t.v2 == old(t.v2)
    case Handler(t) => t.v1 == old(t.v1) && t.v2 == old(t.v2)
    case Device(t) => t.v1 == old(t.v1)
  }

  twostate predicate TasksSame(b: seq<TaskControlBlock>)
    reads Parts(b)
  {
    forall k :: 0 <= k < |b| ==> TaskSame(b[k].task)
  }

  twostate lemma TasksNow(b: seq<TaskControlBlock>)
    requires forall k :: 0 <= k < |b| ==> (
      match b[k].task
      case Idle(t) => t.v1 == old(t.v1) && t.count == old(t.count)
      case Worker(t) => t.v1 == old(t.v1) && t.v2 == old(t.v2)
      case Handler(t) => t.v1 == old(t.v1) && t.v2 == old(t.v2)
      case Device(t) => t.v1 == old(t.v1))
    ensures TasksSame(b)
  {
    forall k | 0 <= k < |b|
      ensures TaskSame(b[k].task)
    {
    }
  }

  /** No worklist, task or packet was changed. */
  twostate predicate OnlyStates(s: Scene)
    reads Parts(s.b), s.w.info.Keys
  {
    && (forall k :: 0 <= k < |s.b| ==> s.b[k].queue == old(s.b[k].queue) && TaskSame(s.b[k].task))
    && (forall x :: x in s.w.info ==> x.link == old(x.link) && Text(x) == old(Text(x)))
  }

  twostate lemma OnlyStatesNow(s: Scene)
    requires |s.b| == NUMBER_OF_IDS
    requires forall k :: 0 <= k < |s.b| ==> s.b[k].queue == old(s.b[k].queue)
    requires TasksSame(s.b)
    requires forall x :: x in s.w.info ==> unchanged(x)
    ensures OnlyStates(s)
  {}

  twostate predicate AllHeadsSame(s: Scene)
    requires Built(s.scheduler, s.b)
    reads Parts(s.b)
  {
    forall p :: IsPlace(p) ==> Head(s, p) == old(Head(s, p))
  }

  twostate lemma HeadsNowAll(s: Scene)
    requires Built(s.scheduler, s.b)
    requires forall k :: 0 <= k < |s.b| ==> s.b[k].queue == old(s.b[k].queue)
    requires forall k :: 0 <= k < |s.b| && s.b[k].task.Handler? ==>
      s.b[k].task.handler.v1 == old(s.b[k].task.handler.v1) && s.b[k].task.handler.v2 == old(s.b[k].task.handler.v2)
    requires forall k :: 0 <= k < |s.b| && s.b[k].task.Device? ==> s.b[k].task.device.v1 == old(s.b[k].task.device.v1)
    ensures AllHeadsSame(s)
  {
    forall p | IsPlace(p)
      ensures Head(s, p) == old(Head(s, p))
    {
      assert BlockOk(s.scheduler, s.b, p.id);
    }
  }

  /** Only the packet taken off was changed, and no worklist. */
  twostate lemma ListsKept(s: Scene, new s': Scene)
    requires old(Mirrors(s)) && AllHeadsSame(s) && s'.b == s.b && s'.scheduler == s.scheduler && s'.off == s.off
    requires s'.w.at == s.w.at && s'.w.info == s.w.info
    requires forall x :: x in s.w.info ==> x.link == old(x.link)
    requires forall y :: y in s.w.info && (TakenOk(s) ==> y != Out(s)) ==>
      y.id == old(y.id) && y.kind == old(y.kind) && y.a1 == old(y.a1) && y.a2 == old(y.a2)
    ensures TakenOk(s') && Built(s'.scheduler, s'.b) && Within(Left(s'), s'.w.info.Keys) && Lists(s')
    ensures Texts(s'.w.info, Out(s'))
  {
    forall p | p in Left(s)
      ensures ListAt(s', p, Left(s)[p])
    {
      assert old(ListAt(s, p, Left(s)[p]));
      assert Head(s', p) == Head(s, p);
    }
  }

  /** A change of task fields, and of the packet taken off. */
  twostate lemma FieldsDone(s: Scene, new w': World)
    requires old(Mirrors(s)) && AllHeadsSame(s) && |s.b| == NUMBER_OF_IDS && 0 <= ID_IDLE < |s.b| && 0 <= ID_WORKER < |s.b|
    requires forall x :: x in s.w.info ==> x.link == old(x.link)
    requires forall y :: y in s.w.info && (TakenOk(s) ==> y != Out(s)) ==>
      y.id == old(y.id) && y.kind == old(y.kind) && y.a1 == old(y.a1) && y.a2 == old(y.a2)
    requires forall k :: 0 <= k < |s.b| ==> s.b[k].state == old(s.b[k].state)
    requires s.b[ID_IDLE].task.Idle? && s.b[ID_IDLE].task.idle.count == w'.count && s.b[ID_IDLE].task.idle.v1 == w'.seed
    requires s.b[ID_WORKER].task.Worker?
    requires s.b[ID_WORKER].task.worker.v1 == w'.workerTo && s.b[ID_WORKER].task.worker.v2 == w'.letter
    requires w'.at == s.w.at && w'.info == s.w.info && w'.state == s.w.state
    ensures Mirrors(s.(w := w'))
  {
    hide *;
    ScenePartsBefore(s);
    ListsKept(s, s.(w := w'));
    StatesNow(s.(w := w'));
    MirrorsIntro(s.(w := w'));
  }

  /** A change of one block's state bits. */
  twostate lemma StateSet(s: Scene, new w': World, new i: int)
    requires old(Mirrors(s)) && OnlyStates(s) && 0 <= i < NUMBER_OF_IDS == |s.b| == |s.w.state|
    requires forall k :: 0 <= k < NUMBER_OF_IDS && k != i ==> s.b[k].state == old(s.b[k].state)
    requires w' == s.w.(state := s.w.state[i := s.b[i].state], cur := w'.cur)
    ensures Mirrors(s.(w := w'))
  {
    hide *;
    ScenePartsBefore(s);
    OnlyStatesParts(s);
    TasksHeads(s);
    HeadsNowAll(s);
    ListsKept(s, s.(w := w'));
    StatesNow(s.(w := w'));
    MirrorsIntro(s.(w := w'));
  }

  twostate lemma OnlyStatesParts(s: Scene)
    requires OnlyStates(s)
    ensures TasksSame(s.b) && forall k :: 0 <= k < |s.b| ==> s.b[k].queue == old(s.b[k].queue)
    ensures forall x :: x in s.w.info ==>
      x.link == old(x.link) && x.id == old(x.id) && x.kind == old(x.kind) && x.a1 == old(x.a1) && x.a2 == old(x.a2)
  {
    forall x | x in s.w.info
      ensures x.link == old(x.link) && x.id == old(x.id) && x.kind == old(x.kind) && x.a1 == old(x.a1) && x.a2 == old(x.a2)
    {
      assert Text(x) == old(Text(x));
    }
  }

  // ---- a packet is sent

  /** `packet` has been taken off, and may go to `place`. */
  ghost predicate Goes(s: Scene, packet: Packet, place: Place) {
    && TakenOk(s) && s.off.Some? && packet == Out(s) && Shaped(s.w) && OnePlace(s.w)
    && IsPlace(place) && s.off.from != place
  }

  ghost predicate Departs(s: Scene, packet: Packet, dest: int) {
    0 <= dest < NUMBER_OF_IDS && Goes(s, packet, Queue(dest))
  }

  ghost function First(l: seq<Packet>): Packet? {
    if l == [] then null else l[0]
  }

  lemma DepartsNow(s: Scene, packet: Packet, dest: int)
    requires Mirrors(s) && Departs(s, packet, dest)
    ensures TakenOk(s) && s.off.Some? && packet == Out(s)
    ensures 0 <= dest < |s.b| && Queue(dest) in s.w.at && packet in s.w.info && packet !in s.w.at[Queue(dest)]
    ensures var l := s.w.at[Queue(dest)];
      s.b[dest].queue == First(l) && Threaded(First(l), l) && DistinctList(l) && forall x :: x in l ==> x in s.w.info
    ensures Within(Left(s), s.w.info.Keys) && Shaped(s.w) && OnePlace(s.w)
  {
    hide States;
    hide Texts;
    assert s.w.at[s.off.from][0] in s.w.at[s.off.from];
    assert ListAt(s, Queue(dest), Left(s)[Queue(dest)]);
    assert forall x :: x in Left(s)[Queue(dest)] ==> x in s.w.info;
  }

  twostate lemma ThreadedKept(l: seq<Packet>)
    requires old(Threaded(First(l), l)) && forall x :: x in l ==> x.link == old(x.link)
    ensures Threaded(First(l), l)
  {}

  twostate lemma OldText(x: Packet)
    ensures old(Text(x)) == Info(old(x.id), old(x.kind), old(x.a1), old(x.a2))
  {}

  /** No packet left elsewhere is the one taken off or in the place it goes to. */
  lemma ElsewhereApart(s: Scene, packet: Packet, to: Place, p: Place)
    requires Goes(s, packet, to) && p in Left(s) && p != to && to in s.w.at
    ensures forall y :: y in Left(s)[p] ==> y != packet && y !in s.w.at[to]
  {
    var from := s.off.from;
    assert DistinctList(s.w.at[from]) && packet in s.w.at[from];
    forall y | y in Left(s)[p]
      ensures y != packet && y in s.w.at[p]
    {
      if p == from {
        var k :| 0 <= k < |s.w.at[from][1..]| && s.w.at[from][1..][k] == y;
        assert s.w.at[from][k + 1] == y;
      }
    }
  }

  lemma SentWorld(s: Scene, packet: Packet, n: Info, i: int)
    requires Departs(s, packet, n.id) && 0 <= i < NUMBER_OF_IDS && packet in s.w.info
    ensures var w', l := Send(s.w, s.off.from, n, i), s.w.at[Queue(n.id)];
      && |s.w.state| == NUMBER_OF_IDS && Queue(n.id) in s.w.at
      && w'.at == Left(s)[Queue(n.id) := l + [packet]] && w'.info == s.w.info[packet := n.(id := i)]
      && w'.info.Keys == s.w.info.Keys
      && w'.state == s.w.state[n.id := if l == [] then s.w.state[n.id].(runnable := true) else s.w.state[n.id]]
      && w'.count == s.w.count && w'.seed == s.w.seed && w'.workerTo == s.w.workerTo && w'.letter == s.w.letter
      && w'.cur == (if l == [] && n.id > i then n.id else i)
  {}

  /** The scene with the packet sent. */
  ghost function Sent(s: Scene, n: Info, i: int): Scene
    requires TakenOk(s) && s.off.Some? && Departs(s, Out(s), n.id) && 0 <= i < NUMBER_OF_IDS
  {
    s.(w := Send(s.w, s.off.from, n, i), off := None)
  }

  lemma AllApart(s: Scene, packet: Packet, to: Place)
    requires Goes(s, packet, to) && to in s.w.at
    ensures Apart(s, to, (set y | y in s.w.at[to]) + {packet})
  {
    forall p | p in Left(s) && p != to
      ensures forall y :: y in Left(s)[p] ==> y != packet && y !in s.w.at[to]
    {
      ElsewhereApart(s, packet, to, p);
    }
  }

  /** What the objects look like when the packet was put at the end of its new queue. */
  twostate lemma SendDone(s: Scene, new packet: Packet, new n: Info, new i: int)
    requires old(Mirrors(s)) && Departs(s, packet, n.id) && 0 <= i < NUMBER_OF_IDS == |s.b| == |s.w.state|
    requires Queue(n.id) in s.w.at
    requires forall y :: y in s.w.info && y != packet && y !in s.w.at[Queue(n.id)] ==> y.link == old(y.link)
    requires forall y :: y in s.w.info && y != packet ==> y.id == old(y.id) && y.kind == old(y.kind) && y.a1 == old(y.a1) && y.a2 == old(y.a2)
    requires packet.id == i && packet.kind == n.kind && packet.a1 == n.a1 && packet.a2 == n.a2
    requires Threaded(s.b[n.id].queue, s.w.at[Queue(n.id)] + [packet])
    requires forall k :: 0 <= k < |s.b| && k != n.id ==> s.b[k].queue == old(s.b[k].queue) && s.b[k].state == old(s.b[k].state)
    requires s.b[n.id].state
          == if s.w.at[Queue(n.id)] == [] then old(s.b[n.id].state).(runnable := true) else old(s.b[n.id].state)
    requires TasksSame(s.b)
    ensures Mirrors(s.(w := Send(s.w, s.off.from, n, i), off := None))
    ensures Send(s.w, s.off.from, n, i).cur == if s.w.at[Queue(n.id)] == [] && n.id > i then n.id else i
  {
    hide *;
    ScenePartsBefore(s);
    DepartsBefore(s, packet, n.id);
    NowText(packet);
    SentWorld(s, packet, n, i);
    var s' := Sent(s, n, i);
    var l := s.w.at[Queue(n.id)];
    SentScene(s, packet, n, i);
    TasksHeads(s);
    HeadsNow(s, Queue(n.id));
    AllApart(s, packet, Queue(n.id));
    SentList(s', n.id, l, packet);
    Relist(s, s', Queue(n.id), (set y | y in l) + {packet});
    StatesNow(s');
    Retext(s, s', packet);
    MirrorsIntro(s');
  }

  lemma BlockIs(b: seq<TaskControlBlock>, k: int)
    requires 0 <= k < |b|
    ensures BlockAt(b, k) == b[k]
  {}

  twostate lemma TasksHeads(s: Scene)
    requires TasksSame(s.b)
    ensures forall k :: 0 <= k < |s.b| && s.b[k].task.Handler? ==>
      s.b[k].task.handler.v1 == old(s.b[k].task.handler.v1) && s.b[k].task.handler.v2 == old(s.b[k].task.handler.v2)
    ensures forall k :: 0 <= k < |s.b| && s.b[k].task.Device? ==> s.b[k].task.device.v1 == old(s.b[k].task.device.v1)
    ensures forall k :: 0 <= k < |s.b| && s.b[k].task.Idle? ==>
      s.b[k].task.idle.v1 == old(s.b[k].task.idle.v1) && s.b[k].task.idle.count == old(s.b[k].task.idle.count)
    ensures forall k :: 0 <= k < |s.b| && s.b[k].task.Worker? ==>
      s.b[k].task.worker.v1 == old(s.b[k].task.worker.v1) && s.b[k].task.worker.v2 == old(s.b[k].task.worker.v2)
  {
    forall k | 0 <= k < |s.b|
      ensures TaskSame(s.b[k].task)
    {
    }
  }

  twostate lemma ScenePartsBefore(s: Scene)
    requires old(Mirrors(s))
    ensures Built(s.scheduler, s.b) && |s.b| == NUMBER_OF_IDS && |s.w.state| == NUMBER_OF_IDS && NUMBER_OF_IDS == 6
    ensures forall k :: 0 <= k < NUMBER_OF_IDS ==> old(s.b[k].state) == s.w.state[k]
    ensures s.b[ID_IDLE].task.Idle? && s.b[ID_WORKER].task.Worker? && 0 <= ID_IDLE < 6 && 0 <= ID_WORKER < 6
    ensures old(s.b[ID_IDLE].task.idle.count) == s.w.count && old(s.b[ID_IDLE].task.idle.v1) == s.w.seed
    ensures old(s.b[ID_WORKER].task.worker.v1) == s.w.workerTo && old(s.b[ID_WORKER].task.worker.v2) == s.w.letter
    ensures TakenOk(s) && Within(Left(s), s.w.info.Keys)
  {
    assert BlockOk(s.scheduler, s.b, ID_IDLE) && BlockOk(s.scheduler, s.b, ID_WORKER);
    forall k | 0 <= k < NUMBER_OF_IDS
      ensures old(s.b[k].state) == s.w.state[k]
    {
      assert old(StateOk(s, k));
    }
    assert old(StateOk(s, ID_IDLE)) && old(StateOk(s, ID_WORKER));
  }

  twostate lemma DepartsBefore(s: Scene, new packet: Packet, new dest: int)
    requires old(Mirrors(s)) && Departs(s, packet, dest)
    ensures TakenOk(s) && s.off.Some? && packet == Out(s) && packet in s.w.info && 0 <= dest < NUMBER_OF_IDS
    ensures Queue(dest) in s.w.at && Within(Left(s), s.w.info.Keys) && forall x :: x in s.w.at[Queue(dest)] ==> x in s.w.info
    ensures Goes(s, packet, Queue(dest))
  {
    assert forall x :: x in Left(s)[Queue(dest)] ==> x in s.w.info;
  }

  // ---- what a change makes of the scene

  /** No packet outside `place` is touched. */
  ghost predicate Apart(s: Scene, place: Place, touched: set<Packet>)
    requires TakenOk(s)
  {
    forall p, y :: p in Left(s) && p != place && y in Left(s)[p] ==> y !in touched
  }

  /** The heads of all worklists but one are as they were. */
  twostate predicate HeadsSame(s: Scene, new place: Place)
    requires Built(s.scheduler, s.b)
    reads Parts(s.b)
  {
    forall p :: IsPlace(p) && p != place ==> Head(s, p) == old(Head(s, p))
  }

  twostate lemma HeadsNow(s: Scene, new place: Place)
    requires Built(s.scheduler, s.b)
    requires forall k :: 0 <= k < |s.b| && place != Queue(k) ==> s.b[k].queue == old(s.b[k].queue)
    requires forall k :: 0 <= k < |s.b| && s.b[k].task.Handler? && place != V1(k) ==> s.b[k].task.handler.v1 == old(s.b[k].task.handler.v1)
    requires forall k :: 0 <= k < |s.b| && s.b[k].task.Handler? && place != V2(k) ==> s.b[k].task.handler.v2 == old(s.b[k].task.handler.v2)
    requires forall k :: 0 <= k < |s.b| && s.b[k].task.Device? && place != Dev(k) ==> s.b[k].task.device.v1 == old(s.b[k].task.device.v1)
    ensures HeadsSame(s, place)
  {
    forall p | IsPlace(p) && p != place
      ensures Head(s, p) == old(Head(s, p))
    {
      assert BlockOk(s.scheduler, s.b, p.id);
    }
  }

  /** The same objects with another world: all places but one hold what they held. */
  ghost predicate Becomes(s: Scene, s': Scene, place: Place) {
    && s'.b == s.b && s'.scheduler == s.scheduler && s'.w.info.Keys == s.w.info.Keys
    && TakenOk(s) && TakenOk(s') && IsPlace(place) && Within(Left(s), s.w.info.Keys) && Within(Left(s'), s.w.info.Keys)
    && (forall p :: p in Left(s) && p != place ==> p in Left(s') && Left(s')[p] == Left(s)[p])
  }

  twostate lemma Relist(s: Scene, new s': Scene, new place: Place, new touched: set<Packet>)
    requires old(Mirrors(s)) && Becomes(s, s', place) && HeadsSame(s, place) && Apart(s, place, touched)
    requires forall y :: y in s.w.info && y !in touched ==> y.link == old(y.link)
    requires place in Left(s') && ListAt(s', place, Left(s')[place])
    ensures Lists(s')
  {
    forall p | p in Left(s')
      ensures ListAt(s', p, Left(s')[p])
    {
      if p != place {
        assert old(ListAt(s, p, Left(s)[p]));
        ListAtSame(s, p);
        assert Head(s', p) == Head(s, p);
      }
    }
  }

  twostate lemma ListAtSame(s: Scene, new p: Place)
    requires old(Mirrors(s)) && IsPlace(p) && p in Left(s) && old(ListAt(s, p, Left(s)[p]))
    requires Head(s, p) == old(Head(s, p)) && forall y :: y in Left(s)[p] ==> y.link == old(y.link)
    ensures ListAt(s, p, Left(s)[p])
  {}

  lemma StatesNow(s: Scene)
    requires Built(s.scheduler, s.b) && |s.w.state| == NUMBER_OF_IDS
    requires forall k :: 0 <= k < |s.b| ==> s.b[k].state == s.w.state[k]
    requires s.b[ID_IDLE].task.Idle? && s.b[ID_WORKER].task.Worker?
    requires s.b[ID_IDLE].task.idle.count == s.w.count && s.b[ID_IDLE].task.idle.v1 == s.w.seed
    requires s.b[ID_WORKER].task.worker.v1 == s.w.workerTo && s.b[ID_WORKER].task.worker.v2 == s.w.letter
    ensures States(s)
  {
    forall k | 0 <= k < NUMBER_OF_IDS
      ensures StateOk(s, k)
    {
    }
  }

  /** The texts of all packets but one are as they were. */
  twostate lemma Retext(s: Scene, new s': Scene, new packet: Packet)
    requires old(Mirrors(s)) && TakenOk(s') && s'.w.info.Keys == s.w.info.Keys && (Out(s) == null || Out(s) == packet)
    requires forall y :: y in s.w.info && y != packet ==> s'.w.info[y] == s.w.info[y]
    requires forall y :: y in s.w.info && y != packet ==> y.id == old(y.id) && y.kind == old(y.kind) && y.a1 == old(y.a1) && y.a2 == old(y.a2)
    requires packet in s.w.info && (Out(s') == packet || s'.w.info[packet] == Text(packet))
    ensures Texts(s'.w.info, Out(s'))
  {}

  lemma NowText(x: Packet)
    ensures Text(x) == Info(x.id, x.kind, x.a1, x.a2)
  {}

  lemma MirrorsIntro(s: Scene)
    requires Built(s.scheduler, s.b) && TakenOk(s) && States(s) && Within(Left(s), s.w.info.Keys) && Lists(s)
    requires Texts(s.w.info, Out(s))
    ensures Mirrors(s)
  {}

  lemma SentScene(s: Scene, packet: Packet, n: Info, i: int)
    requires Departs(s, packet, n.id) && 0 <= i < NUMBER_OF_IDS && Within(Left(s), s.w.info.Keys)
    requires Queue(n.id) in s.w.at && forall y :: y in s.w.at[Queue(n.id)] ==> y in s.w.info
    ensures packet == Out(s)
    ensures var s' := Sent(s, n, i);
      && Becomes(s, s', Queue(n.id)) && s'.off.None? && Left(s') == s'.w.at && Queue(n.id) in s'.w.at
      && s'.w == Send(s.w, s.off.from, n, i) && TakenOk(s') && Out(s') == null && s'.b == s.b && s'.scheduler == s.scheduler
      && Within(Left(s'), s.w.info.Keys)
      && s' == s.(w := Send(s.w, s.off.from, n, i), off := None)
  {
    SentWorld(s, packet, n, i);
    hide Send;
    hide OnePlace;
    hide Shaped;
  }

  lemma SentList(s: Scene, dest: int, l: seq<Packet>, packet: Packet)
    requires Built(s.scheduler, s.b) && 0 <= dest < |s.b| == NUMBER_OF_IDS
    requires Threaded(s.b[dest].queue, l + [packet])
    ensures ListAt(s, Queue(dest), l + [packet])
  {}

  // ---- what a task is handed

  /** What a task finds when it is run in state `w0`: its first packet, taken off, if it takes one. */
  ghost predicate Handed(s: Scene, w0: World, i: int, packet: Packet?)
    reads if packet == null then {} else {packet}
  {
    && Good(w0) && w0.cur == i && 0 <= i < NUMBER_OF_IDS && Ready(w0.state[i]) && TakenOk(s) && packet == Out(s)
    && (packet == null ==> !Takes(w0.state[i]) && s.w == w0 && s.off.None?)
    && (packet != null ==> Takes(w0.state[i]) && s.w == AfterTake(w0, i) && s.off == Some(Queue(i))
                           && packet in s.w.info && Text(packet) == s.w.info[packet])
  }

  lemma SceneFields(s: Scene)
    requires Mirrors(s)
    ensures |s.b| == 6 == NUMBER_OF_IDS && ID_IDLE == 0 && ID_WORKER == 1
    ensures s.b[ID_IDLE].task.Idle? && s.b[ID_WORKER].task.Worker?
    ensures s.b[ID_IDLE].task.idle.count == s.w.count && s.b[ID_IDLE].task.idle.v1 == s.w.seed
    ensures s.b[ID_WORKER].task.worker.v1 == s.w.workerTo && s.b[ID_WORKER].task.worker.v2 == s.w.letter
  {
    assert BlockOk(s.scheduler, s.b, ID_IDLE) && BlockOk(s.scheduler, s.b, ID_WORKER);
    assert StateOk(s, ID_IDLE) && StateOk(s, ID_WORKER);
  }

  /** No two blocks have the same handler or device. */
  lemma OtherTasks(s: Scene, i: int)
    requires Mirrors(s) && 0 <= i < NUMBER_OF_IDS
    ensures |s.b| == NUMBER_OF_IDS
    ensures forall k :: 0 <= k < |s.b| && k != i && s.b[k].task.Handler? && s.b[i].task.Handler? ==>
      s.b[k].task.handler != s.b[i].task.handler
    ensures forall k :: 0 <= k < |s.b| && k != i && s.b[k].task.Device? && s.b[i].task.Device? ==>
      s.b[k].task.device != s.b[i].task.device
  {
    forall k | 0 <= k < |s.b| && k != i
      ensures s.b[k].task.Handler? && s.b[i].task.Handler? ==> s.b[k].task.handler != s.b[i].task.handler
      ensures s.b[k].task.Device? && s.b[i].task.Device? ==> s.b[k].task.device != s.b[i].task.device
    {
      assert BlockOk(s.scheduler, s.b, k) && BlockOk(s.scheduler, s.b, i);
    }
  }

  lemma OwnObject(b: seq<TaskControlBlock>, i: int)
    requires 0 <= i < |b|
    ensures b[i].task.Idle? ==> b[i].task.idle in Parts(b)
    ensures b[i].task.Worker? ==> b[i].task.worker in Parts(b)
    ensures b[i].task.Handler? ==> b[i].task.handler in Parts(b)
    ensures b[i].task.Device? ==> b[i].task.device in Parts(b)
    ensures b[i] in Parts(b)
  {
    assert TaskObject(b[i].task) in Parts(b);
  }

  lemma IdleHanded(s: Scene, w0: World, packet: Packet?)
    requires Handed(s, w0, ID_IDLE, packet)
    ensures s.w == w0 && s.off.None? && packet == null && Good(w0) && w0.cur == ID_IDLE && 0 <= ID_IDLE < NUMBER_OF_IDS
    ensures Ready(w0.state[ID_IDLE]) && Step(w0).count == w0.count - 1
    ensures Step(w0).seed == if w0.count == 1 then w0.seed else NextSeed(w0.seed)
    ensures 0 <= ID_DEVICE_A < NUMBER_OF_IDS && 0 <= ID_DEVICE_B < NUMBER_OF_IDS
    ensures var w1 := w0.(count := w0.count - 1);
      && |w0.state| == NUMBER_OF_IDS
      && (w1.count == 0 ==> Step(w0) == Hold(w1, ID_IDLE))
      && (w1.count != 0 ==>
            Step(w0) == Release(w1.(seed := NextSeed(w0.seed)), if w0.seed & 1 == 0 then ID_DEVICE_A else ID_DEVICE_B, ID_IDLE))
  {
    assert TaskOk(w0, ID_IDLE);
    StepDef(w0);
    hide Step;
  }

  lemma DeviceHanded(s: Scene, w0: World, i: int, packet: Packet?)
    requires IsDevice(i) && Handed(s, w0, i, packet)
    ensures 0 <= i < NUMBER_OF_IDS == 6 && IsPlace(Dev(i)) && Dev(i) in s.w.at
    ensures s.off != Some(Dev(i)) && TakenOk(s) && packet == Out(s)
    ensures packet == null ==>
      && s.w == w0 && s.off.None?
      && (w0.at[Dev(i)] == [] ==> Step(w0) == Suspend(w0, i))
      && (w0.at[Dev(i)] != [] ==>
            && var v := w0.at[Dev(i)][0];
            && v in w0.info && w0.at[Dev(i)] == [v] && TakenOk(s.(off := Some(Dev(i))))
            && Step(w0) == Send(w0, Dev(i), w0.info[v], i) && Departs(s.(off := Some(Dev(i))), v, w0.info[v].id))
    ensures packet != null ==>
      && s.off == Some(Queue(i)) && packet in s.w.info && Text(packet) == s.w.info[packet] && Queue(i) in s.w.at
      && s.w.at[Queue(i)] != [] && s.w.at[Dev(i)] == [] && Goes(s, packet, Dev(i))
      && Step(w0) == Hold(Move(s.w, Queue(i), Dev(i), s.w.info[packet]), i)
      && |Move(s.w, Queue(i), Dev(i), s.w.info[packet]).state| == NUMBER_OF_IDS
  {
    hide *;
    Ids();
    HandedParts(s, w0, i, packet);
    GoodShaped(w0);
    StepDef(w0);
    DeviceStepDef(w0, i);
    DeviceLists(w0, i);
    if packet != null {
      AfterTakeBut(w0, i);
      DeviceGoes(s, packet, i);
      MoveState(s.w, Queue(i), Dev(i), s.w.info[packet]);
      AfterTakeBits(w0, i);
    } else if w0.at[Dev(i)] != [] {
      var v := w0.at[Dev(i)][0];
      SlotDeparts(s, i, v, w0.info[v].id);
    }
  }

  lemma HandedParts(s: Scene, w0: World, i: int, packet: Packet?)
    requires Handed(s, w0, i, packet)
    ensures Good(w0) && w0.cur == i && 0 <= i < NUMBER_OF_IDS && Ready(w0.state[i]) && TakenOk(s) && packet == Out(s)
    ensures packet == null ==> !Takes(w0.state[i]) && s.w == w0 && s.off.None?
    ensures packet != null ==>
      && Takes(w0.state[i]) && s.w == AfterTake(w0, i) && s.off == Some(Queue(i)) && packet in s.w.info
      && Text(packet) == s.w.info[packet] && Queue(i) in s.w.at && s.w.at[Queue(i)] != [] && packet == s.w.at[Queue(i)][0]
  {}

  lemma DeviceLists(w0: World, i: int)
    requires Good(w0) && IsDevice(i)
    ensures 0 < i < NUMBER_OF_IDS && IsPlace(Dev(i)) && Dev(i) in w0.at && |w0.at[Dev(i)]| <= 1 && Queue(i) in w0.at
    ensures forall v :: w0.at[Dev(i)] != [] && w0.at[Dev(i)][0] == v ==> w0.at[Dev(i)] == [v]
  {}

  lemma DeviceGoes(s: Scene, packet: Packet, i: int)
    requires IsDevice(i) && Shaped(s.w) && OnePlace(s.w) && TakenOk(s) && packet == Out(s) && s.off == Some(Queue(i))
    ensures Goes(s, packet, Dev(i))
  {}

  lemma SlotDeparts(s: Scene, i: int, v: Packet, dest: int)
    requires IsDevice(i) && Shaped(s.w) && OnePlace(s.w) && s.w.at[Dev(i)] == [v] && v in s.w.info && 0 <= dest < NUMBER_OF_IDS
    ensures TakenOk(s.(off := Some(Dev(i)))) && Departs(s.(off := Some(Dev(i))), v, dest)
  {}

  /** A device's slot holds the packet that is there. */
  lemma DeviceSlot(s: Scene, i: int)
    requires Mirrors(s) && IsDevice(i) && s.off != Some(Dev(i))
    ensures Dev(i) in s.w.at && |s.b| == NUMBER_OF_IDS && 0 <= i < |s.b| && s.b[i].task.Device?
    ensures s.b[i].task.device.v1 == null <==> s.w.at[Dev(i)] == []
    ensures s.w.at[Dev(i)] != [] ==> s.b[i].task.device.v1 == s.w.at[Dev(i)][0]
  {
    assert BlockOk(s.scheduler, s.b, i);
    assert Dev(i) in Left(s) && ListAt(s, Dev(i), Left(s)[Dev(i)]);
  }

  lemma TextIs(s: Scene, x: Packet)
    requires Mirrors(s) && x in s.w.info && Out(s) != x
    ensures s.w.info[x] == Text(x)
  {}

  // ---- a packet is taken off, or put down

  /** The first packet at `place` has been taken off; the world is otherwise `w'`. */
  ghost function TakenFrom(s: Scene, place: Place, w': World): Scene {
    s.(w := w', off := Some(place))
  }

  twostate lemma TakeDone(s: Scene, new place: Place, new w': World)
    requires old(Mirrors(s)) && s.off.None? && IsPlace(place) && place in s.w.at && s.w.at[place] != []
    requires w'.at == s.w.at && w'.info == s.w.info
    requires Built(s.scheduler, s.b) && HeadsSame(s, place) && ListAt(s, place, s.w.at[place][1..])
    requires forall y :: y in s.w.info ==> y.link == old(y.link)
    requires forall y :: y in s.w.info ==> y.id == old(y.id) && y.kind == old(y.kind) && y.a1 == old(y.a1) && y.a2 == old(y.a2)
    requires States(TakenFrom(s, place, w'))
    ensures Mirrors(TakenFrom(s, place, w')) && TakenOk(TakenFrom(s, place, w')) && Out(TakenFrom(s, place, w')) == s.w.at[place][0]
  {
    hide *;
    var s' := TakenFrom(s, place, w');
    ScenePartsBefore(s);
    TakenScene(s, place, w');
    NoneApart(s, place);
    ListAtScene(s, s', place, s.w.at[place][1..]);
    Relist(s, s', place, {});
    Retext(s, s', s.w.at[place][0]);
    MirrorsIntro(s');
  }

  lemma TakenScene(s: Scene, place: Place, w': World)
    requires s.off.None? && IsPlace(place) && place in s.w.at && s.w.at[place] != [] && Within(Left(s), s.w.info.Keys)
    requires w'.at == s.w.at && w'.info == s.w.info
    ensures var s' := TakenFrom(s, place, w');
      && Becomes(s, s', place) && TakenOk(s') && place in Left(s') && Left(s')[place] == s.w.at[place][1..]
      && Out(s') == s.w.at[place][0] && s.w.at[place][0] in s.w.info && TakenOk(s) && Out(s) == null
      && s'.w == w' && s'.b == s.b && s'.scheduler == s.scheduler && Within(Left(s'), s'.w.info.Keys)
  {
    var s' := TakenFrom(s, place, w');
    assert s.w.at[place][0] in Left(s)[place];
    assert forall y :: y in s.w.at[place][1..] ==> y in s.w.at[place];
    forall p, x | p in Left(s') && x in Left(s')[p]
      ensures x in Left(s)[p]
    {
    }
  }

  lemma NoneApart(s: Scene, place: Place)
    requires TakenOk(s)
    ensures Apart(s, place, {})
  {}

  lemma ListAtScene(s: Scene, s': Scene, place: Place, l: seq<Packet>)
    requires Built(s.scheduler, s.b) && s'.scheduler == s.scheduler && s'.b == s.b && IsPlace(place) && ListAt(s, place, l)
    ensures ListAt(s', place, l)
  {
    assert Head(s', place) == Head(s, place);
  }

  /** The packet taken off has been put down at the end of the place `to`. */
  ghost function PutDown(s: Scene, packet: Packet, to: Place): Scene
    requires Goes(s, packet, to) && to in s.w.at && packet in s.w.info
  {
    s.(w := Move(s.w, s.off.from, to, s.w.info[packet]), off := None)
  }

  twostate lemma ArriveDone(s: Scene, new packet: Packet, new to: Place)
    requires old(Mirrors(s)) && Goes(s, packet, to) && to in s.w.at && packet in s.w.info
    requires Built(s.scheduler, s.b) && HeadsSame(s, to) && IsPlace(to) && ListAt(s, to, s.w.at[to] + [packet])
    requires forall y :: y in s.w.info && y != packet && y !in s.w.at[to] ==> y.link == old(y.link)
    requires forall y :: y in s.w.info && y != packet ==> y.id == old(y.id) && y.kind == old(y.kind) && y.a1 == old(y.a1) && y.a2 == old(y.a2)
    requires s.w.info[packet] == Text(packet) && States(PutDown(s, packet, to))
    ensures Mirrors(PutDown(s, packet, to))
  {
    hide *;
    var s' := PutDown(s, packet, to);
    ScenePartsBefore(s);
    PutScene(s, packet, to);
    AllApart(s, packet, to);
    ListAtScene(s, s', to, s.w.at[to] + [packet]);
    Relist(s, s', to, (set y | y in s.w.at[to]) + {packet});
    Retext(s, s', packet);
    MirrorsIntro(s');
  }

  lemma PutScene(s: Scene, packet: Packet, to: Place)
    requires Goes(s, packet, to) && to in s.w.at && packet in s.w.info && Within(Left(s), s.w.info.Keys)
    ensures var s' := PutDown(s, packet, to);
      && Becomes(s, s', to) && to in Left(s') && Left(s')[to] == s.w.at[to] + [packet] && TakenOk(s') && Out(s') == null
      && Out(s) == packet && TakenOk(s) && s'.b == s.b && s'.scheduler == s.scheduler && s'.w.info.Keys == s.w.info.Keys
      && s'.w.info == s.w.info && Within(Left(s'), s'.w.info.Keys)
  {
    hide OnePlace;
    hide Shaped;
    var s' := PutDown(s, packet, to);
    assert s.w.at[s.off.from] == [packet] + s.w.at[s.off.from][1..];
    forall p, x | p in Left(s') && x in Left(s')[p]
      ensures x == packet || x in Left(s)[p]
    {
    }
  }

  lemma SlotEmpty(s: Scene, i: int)
    requires Built(s.scheduler, s.b) && IsDevice(i) && 0 <= i < |s.b| && s.b[i].task.Device? && s.b[i].task.device.v1 == null
    requires Dev(i) in s.w.at && |s.w.at[Dev(i)]| == 1
    ensures IsPlace(Dev(i)) && ListAt(s, Dev(i), s.w.at[Dev(i)][1..])
  {}

  lemma SlotFilled(s: Scene, i: int, packet: Packet)
    requires Built(s.scheduler, s.b) && IsDevice(i) && 0 <= i < |s.b| && s.b[i].task.Device? && s.b[i].task.device.v1 == packet
    requires Dev(i) in s.w.at && s.w.at[Dev(i)] == []
    ensures IsPlace(Dev(i)) && ListAt(s, Dev(i), s.w.at[Dev(i)] + [packet])
  {}

  lemma TakenIs(s: Scene, place: Place, w': World)
    ensures TakenFrom(s, place, w') == s.(w := w', off := Some(place))
  {}

  lemma PutDownIs(s: Scene, packet: Packet, to: Place)
    requires Goes(s, packet, to) && to in s.w.at && packet in s.w.info
    ensures PutDown(s, packet, to) == s.(w := PutDown(s, packet, to).w, off := None)
    ensures s.off.Some? && s.off.from in s.w.at && s.w.at[s.off.from] != [] && s.off.from != to
    ensures PutDown(s, packet, to).w == Move(s.w, s.off.from, to, s.w.info[packet])
    ensures PutDown(s, packet, to).w.state == s.w.state && PutDown(s, packet, to).w.count == s.w.count
    ensures PutDown(s, packet, to).w.seed == s.w.seed && PutDown(s, packet, to).w.workerTo == s.w.workerTo
    ensures PutDown(s, packet, to).w.letter == s.w.letter
  {}

  // ---- what the worker finds

  lemma NthNext(letter: int, n: nat)
    ensures NthLetter(letter, 0) == letter
    ensures NthLetter(letter, n + 1) == if NthLetter(letter, n) + 1 > 26 then 1 else NthLetter(letter, n) + 1
  {}

  lemma WorkerHanded(s: Scene, w0: World, packet: Packet?)
    requires Handed(s, w0, ID_WORKER, packet)
    ensures TakenOk(s) && packet == Out(s) && DATA_SIZE == 4
    ensures packet == null ==> s.w == w0 && s.off.None? && Step(w0) == Suspend(w0, ID_WORKER)
    ensures packet != null ==>
      && s.off == Some(Queue(ID_WORKER)) && packet in s.w.info && packet.kind == KIND_WORK && |packet.a2| == DATA_SIZE
      && var w1 := s.w.(workerTo := Other(s.w.workerTo), letter := NthLetter(s.w.letter, DATA_SIZE));
      && Departs(s.(w := w1), packet, Other(s.w.workerTo))
      && Other(s.w.workerTo) == (if s.w.workerTo == ID_HANDLER_A then ID_HANDLER_B else ID_HANDLER_A)
      && Step(w0) == Send(w1, Queue(ID_WORKER), Info(Other(s.w.workerTo), KIND_WORK, 0, Letters(s.w.letter, DATA_SIZE)), ID_WORKER)
  {
    hide *;
    Ids();
    HandedParts(s, w0, ID_WORKER, packet);
    GoodShaped(w0);
    StepDef(w0);
    WorkerStepDef(w0, Letters(w0.letter, DATA_SIZE), NthLetter(w0.letter, DATA_SIZE));
    if packet != null {
      AfterTakeBut(w0, ID_WORKER);
      AfterTakeFields(w0, ID_WORKER);
      WorkerText(s.w);
      FirstFits(s.w, Queue(ID_WORKER));
      WorkerPacket(s, packet);
      WorkerDeparts(s, packet, s.w.(workerTo := Other(s.w.workerTo), letter := NthLetter(s.w.letter, DATA_SIZE)));
    }
  }

  lemma AfterTakeFields(w: World, i: int)
    requires Shaped(w) && 0 <= i < NUMBER_OF_IDS
    ensures AfterTake(w, i).workerTo == w.workerTo && AfterTake(w, i).letter == w.letter && AfterTake(w, i).at == w.at
    ensures AfterTake(w, i).info == w.info
  {}

  lemma WorkerPacket(s: Scene, packet: Packet)
    requires Queue(ID_WORKER) in s.w.at && s.w.at[Queue(ID_WORKER)] != [] && packet == s.w.at[Queue(ID_WORKER)][0]
    requires FitsFirst(s.w, Queue(ID_WORKER)) && packet in s.w.info && Text(packet) == s.w.info[packet]
    ensures packet.kind == KIND_WORK && |packet.a2| == DATA_SIZE
  {}

  lemma WorkerDeparts(s: Scene, packet: Packet, w1: World)
    requires Shaped(s.w) && OnePlace(s.w) && TakenOk(s) && packet == Out(s) && s.off == Some(Queue(ID_WORKER))
    requires w1 == s.w.(workerTo := Other(s.w.workerTo), letter := w1.letter)
    ensures Departs(s.(w := w1), packet, Other(s.w.workerTo))
    ensures Other(s.w.workerTo) == if s.w.workerTo == ID_HANDLER_A then ID_HANDLER_B else ID_HANDLER_A
  {}

  // ---- what a handler finds

  lemma HandlerHanded(s: Scene, w0: World, i: int, packet: Packet?)
    requires IsHandler(i) && Handed(s, w0, i, packet)
    ensures 0 <= i < NUMBER_OF_IDS && TakenOk(s) && packet == Out(s) && s.off != Some(V1(i)) && s.off != Some(V2(i))
    ensures Orderly(w0) && Orderly(Sorted(w0, i)) && Shaped(Sorted(w0, i)) && AllFit(Sorted(w0, i))
    ensures Good(w0) && w0.cur >= 0 && Step(w0) == HandlerSend(Sorted(w0, i), i)
    ensures Sorted(w0, i).info.Keys == s.w.info.Keys
    ensures packet == null ==> s.w == Sorted(w0, i) && s.off.None?
    ensures packet != null ==>
      && s.off == Some(Queue(i)) && packet in s.w.info && Text(packet) == s.w.info[packet]
      && var to := if packet.kind == KIND_WORK then V1(i) else V2(i);
      && IsPlace(to) && to in s.w.at && Goes(s, packet, to) && packet !in s.w.at[to] && DistinctList(s.w.at[to])
      && Queue(i) in s.w.at && s.w.at[Queue(i)] != []
      && Sorted(w0, i) == Move(s.w, Queue(i), to, s.w.info[packet])
  {
    hide *;
    Ids();
    HandedParts(s, w0, i, packet);
    GoodShaped(w0);
    StepDef(w0);
    SortedDef(w0, i);
    SortedKeys(w0, i);
    if packet != null {
      AfterTakeBut(w0, i);
      AfterTakeFields(w0, i);
      var to := if packet.kind == KIND_WORK then V1(i) else V2(i);
      KindOf(packet);
      HandlerGoes(s, packet, i, to);
    }
  }

  lemma KindOf(x: Packet)
    ensures Text(x).kind == x.kind
  {}

  lemma SortedKeys(w: World, i: int)
    requires Orderly(w) && IsHandler(i)
    ensures Sorted(w, i).info.Keys == w.info.Keys && AfterTake(w, i).info == w.info
  {
    SortedPackets(w, i);
  }

  lemma HandlerGoes(s: Scene, packet: Packet, i: int, to: Place)
    requires IsHandler(i) && Shaped(s.w) && OnePlace(s.w) && TakenOk(s) && packet == Out(s) && s.off == Some(Queue(i))
    requires to == V1(i) || to == V2(i)
    ensures Goes(s, packet, to) && IsPlace(to) && to in s.w.at && packet !in s.w.at[to] && DistinctList(s.w.at[to])
  {
    assert s.w.at[Queue(i)][0] in s.w.at[Queue(i)];
  }

  /** A handler's two lists hold the packets that are there. */
  lemma HandlerLists(s: Scene, i: int)
    requires Mirrors(s) && IsHandler(i) && s.off != Some(V1(i)) && s.off != Some(V2(i))
    ensures |s.b| == NUMBER_OF_IDS && 0 <= i < |s.b| && s.b[i].task.Handler? && IsPlace(V1(i)) && IsPlace(V2(i))
    ensures V1(i) in s.w.at && V2(i) in s.w.at
    ensures Threaded(s.b[i].task.handler.v1, s.w.at[V1(i)]) && Threaded(s.b[i].task.handler.v2, s.w.at[V2(i)])
    ensures s.b[i].task.handler.v1 == null <==> s.w.at[V1(i)] == []
    ensures s.b[i].task.handler.v2 == null <==> s.w.at[V2(i)] == []
    ensures s.w.at[V1(i)] != [] ==> s.b[i].task.handler.v1 == s.w.at[V1(i)][0]
    ensures s.w.at[V2(i)] != [] ==> s.b[i].task.handler.v2 == s.w.at[V2(i)][0]
    ensures forall x :: x in s.w.at[V1(i)] || x in s.w.at[V2(i)] ==> x in s.w.info
  {
    assert BlockOk(s.scheduler, s.b, i);
    assert V1(i) in Left(s) && V2(i) in Left(s);
    assert ListAt(s, V1(i), Left(s)[V1(i)]) && ListAt(s, V2(i), Left(s)[V2(i)]);
  }

  lemma ListOne(s: Scene, i: int, l: seq<Packet>)
    requires Built(s.scheduler, s.b) && IsHandler(i) && 0 <= i < |s.b| && s.b[i].task.Handler?
    requires Threaded(s.b[i].task.handler.v1, l)
    ensures IsPlace(V1(i)) && ListAt(s, V1(i), l)
  {}

  lemma ListTwo(s: Scene, i: int, l: seq<Packet>)
    requires Built(s.scheduler, s.b) && IsHandler(i) && 0 <= i < |s.b| && s.b[i].task.Handler?
    requires Threaded(s.b[i].task.handler.v2, l)
    ensures IsPlace(V2(i)) && ListAt(s, V2(i), l)
  {}

  lemma TailList(l: seq<Packet>)
    requires l != [] && Threaded(l[0], l)
    ensures Threaded(l[0].link, l[1..])
  {}

  lemma ServeDef(s: Scene, i: int)
    requires Orderly(s.w) && IsHandler(i) && s.off.None?
    ensures Shaped(s.w) && AllFit(s.w) && TakenOk(s) && Out(s) == null && 0 <= i < NUMBER_OF_IDS && V1(i) in s.w.at && V2(i) in s.w.at
    ensures DistinctList(s.w.at[V1(i)]) && DistinctList(s.w.at[V2(i)])
    ensures s.w.at[V1(i)] == [] ==> HandlerSend(s.w, i) == Suspend(s.w, i)
    ensures s.w.at[V1(i)] != [] ==>
      && var h := s.w.at[V1(i)][0];
      && h in s.w.info && var n := s.w.info[h];
      && 0 <= n.a1 && |n.a2| == DATA_SIZE
      && (n.a1 < DATA_SIZE && s.w.at[V2(i)] == [] ==> HandlerSend(s.w, i) == Suspend(s.w, i))
      && (n.a1 < DATA_SIZE && s.w.at[V2(i)] != [] ==>
            && var v := s.w.at[V2(i)][0];
            && v in s.w.info && v != h
            && var w1 := s.w.(info := s.w.info[h := n.(a1 := n.a1 + 1)]);
            && Departs(s.(w := w1, off := Some(V2(i))), v, s.w.info[v].id)
            && HandlerSend(s.w, i) == Send(w1, V2(i), s.w.info[v].(a1 := n.a2[n.a1]), i))
      && (n.a1 >= DATA_SIZE ==>
            && Departs(s.(off := Some(V1(i))), h, n.id)
            && HandlerSend(s.w, i) == Send(s.w, V1(i), n, i))
  {
    hide *;
    Ids();
    OrderlyParts(s.w);
    HandlerSendDef(s.w, i);
    HandlerFirst(s.w, i);
    HandlerPlacesDistinct(s.w, i);
    ServeScene(s);
    if s.w.at[V1(i)] != [] {
      var h := s.w.at[V1(i)][0];
      var n := s.w.info[h];
      if n.a1 >= DATA_SIZE {
        ListDeparts(s, V1(i), i, n.id);
      } else if s.w.at[V2(i)] != [] {
        var v := s.w.at[V2(i)][0];
        OtherPlace(s.w, V1(i), V2(i));
        var w1 := s.w.(info := s.w.info[h := n.(a1 := n.a1 + 1)]);
        InfoPlaces(s.w, h, n.(a1 := n.a1 + 1));
        ListDeparts(s.(w := w1), V2(i), i, s.w.info[v].id);
      }
    }
  }

  lemma ServeScene(s: Scene)
    requires s.off.None?
    ensures TakenOk(s) && Out(s) == null
  {}

  lemma HandlerPlacesDistinct(w: World, i: int)
    requires Shaped(w) && OnePlace(w) && IsHandler(i)
    ensures V1(i) in w.at && V2(i) in w.at && DistinctList(w.at[V1(i)]) && DistinctList(w.at[V2(i)])
  {}

  lemma InfoPlaces(w: World, h: Packet, n: Info)
    requires Shaped(w) && OnePlace(w) && h in w.info
    ensures var w1 := w.(info := w.info[h := n]); Shaped(w1) && OnePlace(w1) && w1.at == w.at && w1.info.Keys == w.info.Keys
  {}

  lemma ListDeparts(s: Scene, place: Place, i: int, dest: int)
    requires IsHandler(i) && (place == V1(i) || place == V2(i)) && Shaped(s.w) && OnePlace(s.w) && place in s.w.at
    requires s.w.at[place] != [] && s.w.at[place][0] in s.w.info && 0 <= dest < NUMBER_OF_IDS
    ensures Departs(s.(off := Some(place)), s.w.at[place][0], dest)
  {}

  /** A packet put into a handler's list. */
  twostate lemma KeepDone(s: Scene, new packet: Packet, new to: Place)
    requires old(Mirrors(s)) && Goes(s, packet, to) && to in s.w.at && packet in s.w.info
    requires Built(s.scheduler, s.b) && HeadsSame(s, to) && IsPlace(to) && ListAt(s, to, s.w.at[to] + [packet])
    requires forall y :: y in s.w.info && y != packet && y !in s.w.at[to] ==> y.link == old(y.link)
    requires forall y :: y in s.w.info && y != packet ==> y.id == old(y.id) && y.kind == old(y.kind) && y.a1 == old(y.a1) && y.a2 == old(y.a2)
    requires s.w.info[packet] == Info(packet.id, packet.kind, packet.a1, packet.a2)
    requires forall k :: 0 <= k < |s.b| ==> s.b[k].state == old(s.b[k].state)
    requires forall k :: 0 <= k < |s.b| && s.b[k].task.Idle? ==>
      s.b[k].task.idle.v1 == old(s.b[k].task.idle.v1) && s.b[k].task.idle.count == old(s.b[k].task.idle.count)
    requires forall k :: 0 <= k < |s.b| && s.b[k].task.Worker? ==>
      s.b[k].task.worker.v1 == old(s.b[k].task.worker.v1) && s.b[k].task.worker.v2 == old(s.b[k].task.worker.v2)
    ensures s.off.Some? && s.off.from in s.w.at && s.w.at[s.off.from] != [] && s.off.from != to
    ensures Mirrors(s.(w := Move(s.w, s.off.from, to, s.w.info[packet]), off := None))
  {
    hide *;
    ScenePartsBefore(s);
    PutDownIs(s, packet, to);
    StatesNow(PutDown(s, packet, to));
    NowText(packet);
    ArriveDone(s, packet, to);
  }

  /** The packet `h`, not the one taken off, says `n` from now on. */
  twostate lemma LetterDone(s: Scene, new h: Packet, new n: Info)
    requires old(Mirrors(s)) && Built(s.scheduler, s.b) && AllHeadsSame(s) && h in s.w.info && TakenOk(s) && h != Out(s)
    requires |s.b| == NUMBER_OF_IDS && 0 <= ID_IDLE < |s.b| && 0 <= ID_WORKER < |s.b|
    requires forall x :: x in s.w.info ==> x.link == old(x.link)
    requires forall y :: y in s.w.info && y != h && y != Out(s) ==>
      y.id == old(y.id) && y.kind == old(y.kind) && y.a1 == old(y.a1) && y.a2 == old(y.a2)
    requires Text(h) == n && States(s)
    ensures Mirrors(s.(w := s.w.(info := s.w.info[h := n])))
  {
    var s' := s.(w := s.w.(info := s.w.info[h := n]));
    hide States;
    hide Built;
    assert Left(s') == Left(s);
    forall p | p in Left(s)
      ensures ListAt(s', p, Left(s)[p])
    {
      assert old(ListAt(s, p, Left(s)[p]));
      assert Head(s', p) == Head(s, p);
    }
    assert States(s') by {
      SameStates(s, s');
    }
  }

  lemma SameStates(s: Scene, s': Scene)
    requires Built(s.scheduler, s.b) && s'.b == s.b && s'.scheduler == s.scheduler && States(s) && s'.w == s.w.(info := s'.w.info)
    ensures States(s')
  {
    forall k | 0 <= k < NUMBER_OF_IDS
      ensures StateOk(s', k)
    {
      assert StateOk(s, k);
    }
  }

  // ---- running a task

  lemma TakeDef(s: Scene, i: int)
    requires Mirrors(s) && s.off.None? && Good(s.w) && s.w.cur == i && 0 <= i < NUMBER_OF_IDS && Ready(s.w.state[i])
    ensures |s.b| == NUMBER_OF_IDS == |s.w.state| && Queue(i) in s.w.at && IsPlace(Queue(i)) && Shaped(s.w)
    ensures s.b[i].state == s.w.state[i] && TakenOk(s) && Out(s) == null
    ensures AfterTake(s.w, i).at == s.w.at && AfterTake(s.w, i).info == s.w.info
    ensures AfterTake(s.w, i).state == s.w.state[i := Bits(|s.w.at[Queue(i)]| > 1, false, false)]
    ensures AfterTake(s.w, i).count == s.w.count && AfterTake(s.w, i).seed == s.w.seed
    ensures AfterTake(s.w, i).workerTo == s.w.workerTo && AfterTake(s.w, i).letter == s.w.letter
    ensures Takes(s.w.state[i]) <==> s.w.state[i] == Bits(true, true, false)
    ensures Takes(s.w.state[i]) ==>
      && var l := s.w.at[Queue(i)];
      && l != [] && s.b[i].queue == l[0] && l[0] in s.w.info && Threaded(l[0].link, l[1..]) && (l[0].link == null <==> |l| <= 1)
  {
    assert StateOk(s, i) && TaskOk(s.w, i);
    assert Queue(i) in Left(s) && ListAt(s, Queue(i), Left(s)[Queue(i)]);
    if Takes(s.w.state[i]) {
      TailList(s.w.at[Queue(i)]);
    }
  }

  lemma ListQueue(s: Scene, i: int, l: seq<Packet>)
    requires Built(s.scheduler, s.b) && 0 <= i < |s.b| == NUMBER_OF_IDS && Threaded(s.b[i].queue, l)
    ensures IsPlace(Queue(i)) && ListAt(s, Queue(i), l)
  {}

  lemma TakenHanded(s1: Scene, w0: World, i: int, packet: Packet)
    requires Good(w0) && w0.cur == i && 0 <= i < NUMBER_OF_IDS && Ready(w0.state[i]) && Takes(w0.state[i])
    requires s1.w == AfterTake(w0, i) && s1.off == Some(Queue(i)) && TakenOk(s1) && packet == Out(s1)
    requires packet in s1.w.info && s1.w.info[packet] == Text(packet)
    ensures Handed(s1, w0, i, packet)
  {}

  lemma NotHanded(s: Scene, i: int)
    requires TakenOk(s) && s.off.None? && Good(s.w) && s.w.cur == i && 0 <= i < NUMBER_OF_IDS && Ready(s.w.state[i])
    requires !Takes(s.w.state[i])
    ensures Handed(s, s.w, i, null)
  {}

  lemma TaskKinds(s: Scene, i: int)
    requires Mirrors(s) && 0 <= i < |s.b|
    ensures |s.b| == NUMBER_OF_IDS
    ensures s.b[i].task.Idle? ==> i == ID_IDLE && s.b[i].task.idle.scheduler == s.scheduler
    ensures s.b[i].task.Worker? ==> i == ID_WORKER && s.b[i].task.worker.scheduler == s.scheduler
    ensures s.b[i].task.Handler? ==> IsHandler(i) && s.b[i].task.handler.scheduler == s.scheduler
    ensures s.b[i].task.Device? ==> IsDevice(i) && s.b[i].task.device.scheduler == s.scheduler
  {
    assert BlockOk(s.scheduler, s.b, i);
  }

  // ---- the loop

  ghost function Measure(w: World): (int, int, int)
    requires Good(w)
  {
    (RoundsLeft(w), Work(w), w.cur + 1)
  }

  lemma MirrorsSame(s: Scene)
    ensures s.(w := s.w) == s
  {}

  lemma SchedulerApart(b: seq<TaskControlBlock>, x: Scheduler)
    ensures x !in Parts(b)
  {}

  /** A task that is there to be looked at, and what a turn does. */
  lemma CurrentBlock(b: seq<TaskControlBlock>, w: World)
    requires Good(w) && BlockAt(b, w.cur) != null && |b| == NUMBER_OF_IDS
    ensures 0 <= w.cur < |b| == |w.state| && BlockAt(b, w.cur) == b[w.cur]
    ensures !Ready(w.state[w.cur]) ==> Step(w) == w.(cur := w.cur - 1)
  {}

  lemma FinalStep(w: World)
    requires Good(w) && w.cur >= 0
    ensures Good(Step(w)) && Final(Step(w)) == Final(w) && Step(w).info.Keys == w.info.Keys
    ensures Measure(w).0 >= 0 && Measure(w).1 >= 0 && Measure(w).2 >= 0
    ensures Measure(Step(w)).0 < Measure(w).0
         || (Measure(Step(w)).0 == Measure(w).0 && Measure(Step(w)).1 < Measure(w).1)
         || (Measure(Step(w)).0 == Measure(w).0 && Measure(Step(w)).1 == Measure(w).1 && Measure(Step(w)).2 < Measure(w).2)
  {
    StepGood(w);
    StepLower(w);
    StepPackets(w);
    hide Step;
    hide Good;
    hide Work;
    hide RoundsLeft;
  }

  lemma WaitsOrReady(b: TaskControlBlock)
    ensures b.IsHeldOrSuspended() <==> !Ready(b.state)
  {}

  lemma CurScene(s: Scene, w: World)
    requires Mirrors(s.(w := w)) && s.off.None?
    ensures Mirrors(s.(w := w.(cur := w.cur - 1)))
  {
    var s1, s2 := s.(w := w), s.(w := w.(cur := w.cur - 1));
    assert Left(s1) == Left(s2);
    forall k | 0 <= k < NUMBER_OF_IDS
      ensures StateOk(s2, k)
    {
      assert StateOk(s1, k);
    }
    forall p | p in Left(s2)
      ensures ListAt(s2, p, Left(s2)[p])
    {
      assert ListAt(s1, p, Left(s1)[p]);
      assert Head(s1, p) == Head(s2, p);
    }
  }

  lemma NoBlock(b: seq<TaskControlBlock>, w: World)
    requires Good(w) && BlockAt(b, w.cur) == null && |b| == NUMBER_OF_IDS
    ensures Final(w) == w
  {}

  // ---- the benchmark's tasks

  /** A worklist of `n` new packets. */
  method NewPackets(n: nat, id: int, kind: int) returns (queue: Packet?, ghost l: seq<Packet>)
    ensures |l| == n && Threaded(queue, l) && DistinctList(l)
    ensures forall x :: x in l ==> fresh(x) && x.id == id && x.kind == kind && x.a1 == 0 && |x.a2| == DATA_SIZE
  {
    queue, l := null, [];
    for i := 0 to n
      invariant |l| == i && Threaded(queue, l) && DistinctList(l)
      invariant forall x :: x in l ==> fresh(x) && x.id == id && x.kind == kind && x.a1 == 0 && |x.a2| == DATA_SIZE
    {
      queue := new Packet(queue, id, kind);
      l := [queue] + l;
    }
  }

  /** The packets of the worker and of the two handlers, which begin with all there are. */
  ghost function StartWorld(work: seq<Packet>, forA: seq<Packet>, forB: seq<Packet>, count: int): World
    reads work, forA, forB
  {
    var at := map[
      Queue(ID_IDLE) := [], Queue(ID_WORKER) := work, Queue(ID_HANDLER_A) := forA, Queue(ID_HANDLER_B) := forB,
      Queue(ID_DEVICE_A) := [], Queue(ID_DEVICE_B) := [],
      V1(ID_HANDLER_A) := [], V1(ID_HANDLER_B) := [], V2(ID_HANDLER_A) := [], V2(ID_HANDLER_B) := [],
      Dev(ID_DEVICE_A) := [], Dev(ID_DEVICE_B) := []];
    var info := map x | x in work + forA + forB :: Text(x);
    var state := [Bits(false, false, false), Bits(work != [], true, false), Bits(forA != [], true, false),
                  Bits(forB != [], true, false), Bits(false, true, false), Bits(false, true, false)];
    World(at, info, state, 1, count, ID_HANDLER_A, 0, ID_DEVICE_B)
  }

  ghost predicate Unused(l: seq<Packet>, id: int, kind: int)
    reads l
  {
    DistinctList(l) && forall x :: x in l ==> x.id == id && x.kind == kind && x.a1 == 0 && |x.a2| == DATA_SIZE
  }

  ghost predicate Separate(k: seq<Packet>, l: seq<Packet>) {
    forall x :: x in k ==> x !in l
  }

  /** The packets that the benchmark starts with. */
  ghost predicate Supplies(work: seq<Packet>, forA: seq<Packet>, forB: seq<Packet>)
    reads work, forA, forB
  {
    && Unused(work, ID_WORKER, KIND_WORK) && Unused(forA, ID_DEVICE_A, KIND_DEVICE) && Unused(forB, ID_DEVICE_B, KIND_DEVICE)
    && Separate(work, forA) && Separate(work, forB) && Separate(forA, forB)
  }

  ghost function StartList(work: seq<Packet>, forA: seq<Packet>, forB: seq<Packet>, p: Place): seq<Packet> {
    if p == Queue(ID_WORKER) then work
    else if p == Queue(ID_HANDLER_A) then forA
    else if p == Queue(ID_HANDLER_B) then forB
    else []
  }

  lemma StartShape(work: seq<Packet>, forA: seq<Packet>, forB: seq<Packet>, count: int)
    ensures var w := StartWorld(work, forA, forB, count);
      && Shaped(w)
      && (forall p :: p in w.at ==> w.at[p] == StartList(work, forA, forB, p))
      && (forall x :: x in w.info <==> x in work || x in forA || x in forB)
      && (forall x :: x in w.info ==> w.info[x] == Text(x))
      && w.cur == ID_DEVICE_B && w.seed == 1 && w.count == count && w.workerTo == ID_HANDLER_A && w.letter == 0
      && w.state == [Bits(false, false, false), Bits(work != [], true, false), Bits(forA != [], true, false),
                     Bits(forB != [], true, false), Bits(false, true, false), Bits(false, true, false)]
  {}

  lemma StartPacket(work: seq<Packet>, forA: seq<Packet>, forB: seq<Packet>, count: int, x: Packet)
    ensures x in StartWorld(work, forA, forB, count).info <==> x in work || x in forA || x in forB
  {}

  /** The benchmark starts in order. */
  lemma StartGood(work: seq<Packet>, forA: seq<Packet>, forB: seq<Packet>, count: int)
    requires Supplies(work, forA, forB) && count >= 1
    ensures Good(StartWorld(work, forA, forB, count))
  {
    hide *;
    Ids();
    var w := StartWorld(work, forA, forB, count);
    StartShape(work, forA, forB, count);
    StartPlaces(work, forA, forB, count);
    StartFits(work, forA, forB, count);
    StartTasks(work, forA, forB, count);
    OrderlyIntro(w);
    NonePassed(w);
    GoodIntro(w);
  }

  lemma NonePassed(w: World)
    requires Shaped(w) && w.cur == ID_DEVICE_B
    ensures Passed(w)
  {}

  lemma StartPlaces(work: seq<Packet>, forA: seq<Packet>, forB: seq<Packet>, count: int)
    requires Supplies(work, forA, forB)
    ensures OnePlace(StartWorld(work, forA, forB, count))
  {
    var w := StartWorld(work, forA, forB, count);
    StartShape(work, forA, forB, count);
    hide StartWorld;
    hide Text;
    StartLists(work, forA, forB);
    forall x | x in w.info
      ensures exists p :: p in w.at && x in w.at[p]
    {
      StartPacket(work, forA, forB, count, x);
      if x in work {
        assert x in w.at[Queue(ID_WORKER)];
      } else if x in forA {
        assert x in w.at[Queue(ID_HANDLER_A)];
      } else {
        assert x in w.at[Queue(ID_HANDLER_B)];
      }
    }
  }

  lemma StartFits(work: seq<Packet>, forA: seq<Packet>, forB: seq<Packet>, count: int)
    requires Supplies(work, forA, forB)
    ensures AllFit(StartWorld(work, forA, forB, count))
  {
    var w := StartWorld(work, forA, forB, count);
    StartShape(work, forA, forB, count);
    hide StartWorld;
    hide DistinctList;
    hide Separate;
  }

  lemma StartTasks(work: seq<Packet>, forA: seq<Packet>, forB: seq<Packet>, count: int)
    requires count >= 1
    ensures Shaped(StartWorld(work, forA, forB, count)) && TasksOk(StartWorld(work, forA, forB, count))
    ensures IsHandler(StartWorld(work, forA, forB, count).workerTo)
  {
    var w := StartWorld(work, forA, forB, count);
    StartShape(work, forA, forB, count);
    hide StartWorld;
    forall i | 0 <= i < NUMBER_OF_IDS
      ensures TaskOk(w, i)
    {
    }
  }

  /** The blocks as they were made. */
  ghost predicate Fresh(scheduler: Scheduler, b: seq<TaskControlBlock>, work: seq<Packet>, forA: seq<Packet>, forB: seq<Packet>,
                        count: int)
    reads b, Parts(b), work, forA, forB
  {
    && Built(scheduler, b)
    && b[ID_IDLE].state == Bits(false, false, false) && b[ID_IDLE].queue == null
    && b[ID_WORKER].state == Bits(work != [], true, false) && Threaded(b[ID_WORKER].queue, work)
    && b[ID_HANDLER_A].state == Bits(forA != [], true, false) && Threaded(b[ID_HANDLER_A].queue, forA)
    && b[ID_HANDLER_B].state == Bits(forB != [], true, false) && Threaded(b[ID_HANDLER_B].queue, forB)
    && b[ID_DEVICE_A].state == Bits(false, true, false) && b[ID_DEVICE_A].queue == null
    && b[ID_DEVICE_B].state == Bits(false, true, false) && b[ID_DEVICE_B].queue == null
    && FreshTasks(b, count)
  }

  ghost predicate FreshTasks(b: seq<TaskControlBlock>, count: int)
    requires |b| == NUMBER_OF_IDS
    reads Parts(b)
  {
    assert forall k :: 0 <= k < NUMBER_OF_IDS ==> TaskObject(b[k].task) in Parts(b);
    && b[ID_IDLE].task.Idle? && b[ID_IDLE].task.idle.v1 == 1 && b[ID_IDLE].task.idle.count == count
    && b[ID_WORKER].task.Worker? && b[ID_WORKER].task.worker.v1 == ID_HANDLER_A && b[ID_WORKER].task.worker.v2 == 0
    && b[ID_HANDLER_A].task.Handler? && b[ID_HANDLER_A].task.handler.v1 == null && b[ID_HANDLER_A].task.handler.v2 == null
    && b[ID_HANDLER_B].task.Handler? && b[ID_HANDLER_B].task.handler.v1 == null && b[ID_HANDLER_B].task.handler.v2 == null
    && b[ID_DEVICE_A].task.Device? && b[ID_DEVICE_A].task.device.v1 == null
    && b[ID_DEVICE_B].task.Device? && b[ID_DEVICE_B].task.device.v1 == null
  }

  lemma StartMirrors(scheduler: Scheduler, b: seq<TaskControlBlock>, work: seq<Packet>, forA: seq<Packet>, forB: seq<Packet>,
                     count: int)
    requires Fresh(scheduler, b, work, forA, forB, count)
    ensures Mirrors(Scene(scheduler, b, StartWorld(work, forA, forB, count), None))
  {
    var w := StartWorld(work, forA, forB, count);
    var s := Scene(scheduler, b, w, None);
    StartShape(work, forA, forB, count);
    hide StartWorld;
    assert Left(s) == w.at;
    assert States(s) by {
      StatesNow(s) by {
        hide Threaded;
      }
    }
    forall p | p in w.at
      ensures ListAt(s, p, w.at[p])
    {
      hide Threaded;
      if w.at[p] == [] {
        EmptyThread();
      }
    }
    forall p, x | p in w.at && x in w.at[p]
      ensures x in w.info
    {
    }
  }

  lemma EmptyThread()
    ensures Threaded(null, [])
  {}

  /** The tasks of the benchmark, with their packets. */
  method SetUp(count: int, workPackets: nat, packetsA: nat, packetsB: nat)
    returns (scheduler: Scheduler, ghost b: seq<TaskControlBlock>, ghost work: seq<Packet>, ghost forA: seq<Packet>,
             ghost forB: seq<Packet>)
    ensures fresh(scheduler) && fresh(Parts(b)) && scheduler.holdCount == 0 && scheduler.queueCount == 0
    ensures |b| == NUMBER_OF_IDS && scheduler.blocks == b && scheduler.list == BlockAt(b, ID_DEVICE_B)
    ensures Fresh(scheduler, b, work, forA, forB, count) && Supplies(work, forA, forB)
    ensures |work| == workPackets && |forA| == packetsA && |forB| == packetsB
    ensures forall x :: x in work || x in forA || x in forB ==> fresh(x)
  {
    hide *;
    Ids();
    scheduler := new Scheduler();
    scheduler.AddIdleTask(ID_IDLE, 0, null, count);
    var idle := scheduler.list;
    var queue;
    queue, work := NewPackets(workPackets, ID_WORKER, KIND_WORK);
    scheduler.AddWorkerTask(ID_WORKER, 1000, queue);
    var worker := scheduler.list;
    FirstTwo(scheduler, idle, worker, work, count);
    ghost var rest;
    rest, forA, forB := SetUpRest(scheduler, worker, packetsA, packetsB);
    b := [idle, worker] + rest;
    FreshJoin(scheduler, idle, worker, rest, work, forA, forB, count);
    PartsJoin(idle, worker, rest);
    SuppliesIntro(work, forA, forB);
    BlockIs(b, ID_DEVICE_B);
  }

  /** The handlers and devices. */
  method SetUpRest(scheduler: Scheduler, below: TaskControlBlock, packetsA: nat, packetsB: nat)
    returns (ghost rest: seq<TaskControlBlock>, ghost forA: seq<Packet>, ghost forB: seq<Packet>)
    requires scheduler.list == below && |scheduler.blocks| == NUMBER_OF_IDS
    modifies scheduler`blocks, scheduler`list, scheduler`currentTcb
    ensures fresh(Parts(rest)) && |rest| == 4
    ensures scheduler.blocks == old(scheduler.blocks[..2]) + rest && scheduler.list == rest[3]
    ensures LastFour(scheduler, below, rest, forA, forB)
    ensures |forA| == packetsA && |forB| == packetsB
    ensures Unused(forA, ID_DEVICE_A, KIND_DEVICE) && Unused(forB, ID_DEVICE_B, KIND_DEVICE)
    ensures forall x :: x in forA || x in forB ==> fresh(x)
    ensures forall x :: x in forA ==> x !in forB
  {
    hide *;
    Ids();
    ghost var blocks := scheduler.blocks;
    var queue;
    queue, forA := NewPackets(packetsA, ID_DEVICE_A, KIND_DEVICE);
    scheduler.AddHandlerTask(ID_HANDLER_A, 2000, queue);
    var handlerA := scheduler.list;
    queue, forB := NewPackets(packetsB, ID_DEVICE_B, KIND_DEVICE);
    scheduler.AddHandlerTask(ID_HANDLER_B, 3000, queue);
    var handlerB := scheduler.list;
    scheduler.AddDeviceTask(ID_DEVICE_A, 4000, null);
    var deviceA := scheduler.list;
    scheduler.AddDeviceTask(ID_DEVICE_B, 5000, null);
    var deviceB := scheduler.list;
    rest := [handlerA, handlerB, deviceA, deviceB];
    assert scheduler.blocks == blocks[..2] + rest;
    UnusedIntro(forA, ID_DEVICE_A, KIND_DEVICE);
    UnusedIntro(forB, ID_DEVICE_B, KIND_DEVICE);
    FourParts(rest);
    LastFourIntro(scheduler, below, rest, forA, forB);
  }

  lemma UnusedIntro(l: seq<Packet>, id: int, kind: int)
    requires DistinctList(l) && forall x :: x in l ==> x.id == id && x.kind == kind && x.a1 == 0 && |x.a2| == DATA_SIZE
    ensures Unused(l, id, kind)
  {}

  lemma FourParts(b: seq<TaskControlBlock>)
    requires |b| == 4
    ensures Parts(b) <= {b[0], b[1], b[2], b[3], TaskObject(b[0].task), TaskObject(b[1].task), TaskObject(b[2].task),
                         TaskObject(b[3].task)}
    ensures forall k :: 0 <= k < 4 && b[k].task.Handler? ==> TaskObject(b[k].task) == b[k].task.handler
    ensures forall k :: 0 <= k < 4 && b[k].task.Device? ==> TaskObject(b[k].task) == b[k].task.device
  {
    forall x | x in Parts(b)
      ensures x in {b[0], b[1], b[2], b[3], TaskObject(b[0].task), TaskObject(b[1].task), TaskObject(b[2].task),
                    TaskObject(b[3].task)}
    {
      var k :| 0 <= k < 4 && (x == b[k] || x == TaskObject(b[k].task));
    }
  }

  /** Six tasks, some packets for the worker and the handlers, and a run of the scheduler: it stops, in
      the state where the state machine stops. */
  method RunRichards(count: int, workPackets: nat, packetsA: nat, packetsB: nat)
    returns (scheduler: Scheduler, ghost w0: World, ghost s: Scene, ghost turns: nat)
    requires count >= 1
    ensures Good(w0) && w0.count == count && Shaped(w0) && |w0.at[Queue(ID_WORKER)]| == workPackets
    ensures |w0.at[Queue(ID_HANDLER_A)]| == packetsA && |w0.at[Queue(ID_HANDLER_B)]| == packetsB
    ensures w0.seed == 1 && w0.letter == 0 && w0.workerTo == ID_HANDLER_A && w0.cur == ID_DEVICE_B
    ensures w0.state == [Bits(false, false, false), Bits(workPackets > 0, true, false), Bits(packetsA > 0, true, false),
                         Bits(packetsB > 0, true, false), Bits(false, true, false), Bits(false, true, false)]
    ensures AllFor(w0, Queue(ID_WORKER), ID_WORKER, KIND_WORK)
    ensures AllFor(w0, Queue(ID_HANDLER_A), ID_DEVICE_A, KIND_DEVICE) && AllFor(w0, Queue(ID_HANDLER_B), ID_DEVICE_B, KIND_DEVICE)
    ensures RichardsRuns.Pending(w0, ID_HANDLER_A) == [] && RichardsRuns.Pending(w0, ID_HANDLER_B) == []
    ensures s.scheduler == scheduler && s.w == Final(w0) == After(w0, turns) && Mirrors(s) && scheduler.currentTcb == null
    ensures scheduler.holdCount == RichardsRuns.Holdings(w0, turns) && scheduler.queueCount == RichardsRuns.Queueings(w0, turns)
  {
    hide *;
    Ids();
    ghost var b, work, forA, forB;
    scheduler, b, work, forA, forB := SetUp(count, workPackets, packetsA, packetsB);
    w0 := StartWorld(work, forA, forB, count);
    StartGood(work, forA, forB, count);
    StartMirrors(scheduler, b, work, forA, forB, count);
    StartShape(work, forA, forB, count);
    StartLists(work, forA, forB);
    StartPlace(w0);
    StartFor(work, forA, forB, count);
    s := Scene(scheduler, b, w0, None);
    StartPending(work, forA, forB, count, ID_HANDLER_A);
    StartPending(work, forA, forB, count, ID_HANDLER_B);
    turns := scheduler.Schedule(s);
    s := s.(w := Final(w0));
  }

  /** The packets there are of this kind, name this task, and have no letter read. */
  ghost predicate AllFor(w: World, p: Place, id: int, kind: int) {
    p in w.at && forall x :: x in w.at[p] ==> x in w.info && w.info[x].id == id && w.info[x].kind == kind && w.info[x].a1 == 0
  }

  lemma StartFor(work: seq<Packet>, forA: seq<Packet>, forB: seq<Packet>, count: int)
    requires Supplies(work, forA, forB)
    ensures var w := StartWorld(work, forA, forB, count);
      && AllFor(w, Queue(ID_WORKER), ID_WORKER, KIND_WORK)
      && AllFor(w, Queue(ID_HANDLER_A), ID_DEVICE_A, KIND_DEVICE) && AllFor(w, Queue(ID_HANDLER_B), ID_DEVICE_B, KIND_DEVICE)
  {}

  lemma StartPlace(w: World)
    requires Shaped(w)
    ensures Queue(ID_WORKER) in w.at && Queue(ID_HANDLER_A) in w.at && Queue(ID_HANDLER_B) in w.at
  {}

  /** No letters are on the way at the start: the handlers have device packets only. */
  lemma StartPending(work: seq<Packet>, forA: seq<Packet>, forB: seq<Packet>, count: int, i: int)
    requires Supplies(work, forA, forB) && IsHandler(i)
    ensures RichardsRuns.Pending(StartWorld(work, forA, forB, count), i) == []
  {
    var w := StartWorld(work, forA, forB, count);
    var l := if i == ID_HANDLER_A then forA else forB;
    NoWorkLetters(l, w.info);
  }

  lemma {:induction false} NoWorkLetters(l: seq<Packet>, info: map<Packet, Info>)
    requires forall x :: x in l && x in info ==> info[x].kind == KIND_DEVICE
    ensures RichardsRuns.Flat(l, info) == []
    decreases |l|
  {
    if l != [] {
      NoWorkLetters(l[1..], info);
    }
  }

  lemma StartLists(work: seq<Packet>, forA: seq<Packet>, forB: seq<Packet>)
    ensures StartList(work, forA, forB, Queue(ID_WORKER)) == work && StartList(work, forA, forB, Queue(ID_HANDLER_A)) == forA
    ensures StartList(work, forA, forB, Queue(ID_HANDLER_B)) == forB
    ensures IsPlace(Queue(ID_WORKER)) && IsPlace(Queue(ID_HANDLER_A)) && IsPlace(Queue(ID_HANDLER_B))
  {}

  lemma SuppliesIntro(work: seq<Packet>, forA: seq<Packet>, forB: seq<Packet>)
    requires DistinctList(work) && forall x :: x in work ==> x.id == ID_WORKER && x.kind == KIND_WORK && x.a1 == 0 && |x.a2| == DATA_SIZE
    requires Unused(forA, ID_DEVICE_A, KIND_DEVICE) && Unused(forB, ID_DEVICE_B, KIND_DEVICE)
    requires (forall x :: x in work ==> x !in forA && x !in forB) && forall x :: x in forA ==> x !in forB
    ensures Supplies(work, forA, forB)
  {}

  /** The blocks of the idle task and the worker as they were made. */
  ghost predicate TwoMade(scheduler: Scheduler, idle: TaskControlBlock, worker: TaskControlBlock, work: seq<Packet>, count: int)
    reads idle, worker, TaskObject(idle.task), TaskObject(worker.task), work
  {
    && idle.id == ID_IDLE && idle.priority == 0 && idle.link == null && idle.state == Bits(false, false, false) && idle.queue == null
    && idle.task.Idle? && idle.task.idle.scheduler == scheduler && idle.task.idle.v1 == 1 && idle.task.idle.count == count
    && worker.id == ID_WORKER && worker.priority == 1000 && worker.link == idle
    && worker.state == Bits(worker.queue != null, true, false) && Threaded(worker.queue, work)
    && worker.task.Worker? && worker.task.worker.scheduler == scheduler
    && worker.task.worker.v1 == ID_HANDLER_A && worker.task.worker.v2 == 0
  }

  lemma FirstTwo(scheduler: Scheduler, idle: TaskControlBlock, worker: TaskControlBlock, work: seq<Packet>, count: int)
    requires idle.id == ID_IDLE && idle.priority == 0 && idle.link == null && idle.state == Bits(false, false, false)
    requires idle.queue == null
    requires idle.task.Idle? && idle.task.idle.scheduler == scheduler && idle.task.idle.v1 == 1 && idle.task.idle.count == count
    requires worker.id == ID_WORKER && worker.priority == 1000 && worker.link == idle
    requires worker.state == Bits(worker.queue != null, true, false) && Threaded(worker.queue, work)
    requires worker.task.Worker? && worker.task.worker.scheduler == scheduler
    requires worker.task.worker.v1 == ID_HANDLER_A && worker.task.worker.v2 == 0
    ensures TwoMade(scheduler, idle, worker, work, count)
  {}

  /** The blocks of the handlers and devices as they were made. */
  ghost predicate LastFour(scheduler: Scheduler, below: TaskControlBlock, b: seq<TaskControlBlock>, forA: seq<Packet>,
                           forB: seq<Packet>)
    reads b, Parts(b), forA, forB
  {
    && |b| == 4
    && (forall k :: 0 <= k < 4 ==> b[k].id == k + 2 && b[k].priority == 1000 * (k + 2))
    && b[0].link == below && b[1].link == b[0] && b[2].link == b[1] && b[3].link == b[2]
    && b[0].state == Bits(b[0].queue != null, true, false) && Threaded(b[0].queue, forA)
    && b[1].state == Bits(b[1].queue != null, true, false) && Threaded(b[1].queue, forB)
    && b[2].state == Bits(false, true, false) && b[2].queue == null
    && b[3].state == Bits(false, true, false) && b[3].queue == null
    && FourTasks(scheduler, b)
  }

  ghost predicate FourTasks(scheduler: Scheduler, b: seq<TaskControlBlock>)
    requires |b| == 4
    reads Parts(b)
  {
    && TaskObject(b[0].task) in Parts(b) && TaskObject(b[1].task) in Parts(b)
    && TaskObject(b[2].task) in Parts(b) && TaskObject(b[3].task) in Parts(b)
    && b[0].task.Handler? && b[0].task.handler.scheduler == scheduler && b[0].task.handler.v1 == null && b[0].task.handler.v2 == null
    && b[1].task.Handler? && b[1].task.handler.scheduler == scheduler && b[1].task.handler.v1 == null && b[1].task.handler.v2 == null
    && b[2].task.Device? && b[2].task.device.scheduler == scheduler && b[2].task.device.v1 == null
    && b[3].task.Device? && b[3].task.device.scheduler == scheduler && b[3].task.device.v1 == null
    && b[0].task != b[1].task && b[2].task != b[3].task
  }

  lemma LastFourIntro(scheduler: Scheduler, below: TaskControlBlock, b: seq<TaskControlBlock>, forA: seq<Packet>,
                      forB: seq<Packet>)
    requires |b| == 4
    requires forall k :: 0 <= k < 4 ==> b[k].id == k + 2 && b[k].priority == 1000 * (k + 2)
    requires b[0].link == below && b[1].link == b[0] && b[2].link == b[1] && b[3].link == b[2]
    requires b[0].state == Bits(b[0].queue != null, true, false) && Threaded(b[0].queue, forA)
    requires b[1].state == Bits(b[1].queue != null, true, false) && Threaded(b[1].queue, forB)
    requires b[2].state == Bits(false, true, false) && b[2].queue == null
    requires b[3].state == Bits(false, true, false) && b[3].queue == null
    requires b[0].task.Handler? && b[0].task.handler.scheduler == scheduler
    requires b[0].task.handler.v1 == null && b[0].task.handler.v2 == null
    requires b[1].task.Handler? && b[1].task.handler.scheduler == scheduler
    requires b[1].task.handler.v1 == null && b[1].task.handler.v2 == null && b[0].task.handler != b[1].task.handler
    requires b[2].task.Device? && b[2].task.device.scheduler == scheduler && b[2].task.device.v1 == null
    requires b[3].task.Device? && b[3].task.device.scheduler == scheduler && b[3].task.device.v1 == null
    requires b[2].task.device != b[3].task.device
    ensures LastFour(scheduler, below, b, forA, forB)
  {}

  lemma PartsJoin(idle: TaskControlBlock, worker: TaskControlBlock, rest: seq<TaskControlBlock>)
    ensures Parts([idle, worker] + rest) <= Parts(rest) + {idle, worker, TaskObject(idle.task), TaskObject(worker.task)}
    ensures idle.task.Idle? ==> TaskObject(idle.task) == idle.task.idle
    ensures worker.task.Worker? ==> TaskObject(worker.task) == worker.task.worker
  {
    var b := [idle, worker] + rest;
    forall x | x in Parts(b)
      ensures x in Parts(rest) + {idle, worker, TaskObject(idle.task), TaskObject(worker.task)}
    {
      var k :| 0 <= k < |b| && (x == b[k] || x == TaskObject(b[k].task));
      if k >= 2 {
        assert b[k] == rest[k - 2];
      }
    }
  }

  lemma FreshJoin(scheduler: Scheduler, idle: TaskControlBlock, worker: TaskControlBlock, rest: seq<TaskControlBlock>,
                  work: seq<Packet>, forA: seq<Packet>, forB: seq<Packet>, count: int)
    requires TwoMade(scheduler, idle, worker, work, count) && LastFour(scheduler, worker, rest, forA, forB)
    ensures Fresh(scheduler, [idle, worker] + rest, work, forA, forB, count)
  {
    var b := [idle, worker] + rest;
    assert b == [idle, worker, rest[0], rest[1], rest[2], rest[3]];
    forall k | 0 <= k < NUMBER_OF_IDS
      ensures BlockOk(scheduler, b, k)
    {
    }
  }
}
