/** What the runs of the Richards machine do: which devices the idle task releases, which letters come out, and how often
    tasks are held and packets queued. */
module RichardsRuns {
  import opened RichardsPackets
  import opened RichardsModel
  import opened RichardsDispatch

  // ---- the idle task's register

  ghost function SeedAfter(v: bv16, n: nat): bv16 {
    if n == 0 then v else NextSeed(SeedAfter(v, n - 1))
  }

  lemma {:induction false} SeedNotZero(v: bv16, n: nat)
    requires v != 0
    ensures SeedAfter(v, n) != 0
  {
    if n > 0 {
      SeedNotZero(v, n - 1);
      assert SeedAfter(v, n) == NextSeed(SeedAfter(v, n - 1));
    }
  }

  /** The first `n` of the 16 bits. */
  ghost function HighBits(n: nat): bv16
    requires n <= 16
  {
    if n == 0 then 0 else (HighBits(n - 1) >> 1) | 0x8000
  }

  lemma AllBits(v: bv16)
    requires v & HighBits(16) == 0
    ensures v == 0
  {
    assert HighBits(4) == 0xF000;
    assert HighBits(8) == 0xFF00;
    assert HighBits(12) == 0xFFF0;
    assert HighBits(16) == 0xFFFF;
  }

  lemma ZerosComeIn(v: bv16, m: bv16)
    requires v & m == 0 && v & 1 == 0
    ensures NextSeed(v) & ((m >> 1) | 0x8000) == 0
  {}

  lemma {:induction false} EvenTurns(v: bv16, n: nat)
    requires n <= 16 && forall k :: 0 <= k < n ==> SeedAfter(v, k) & 1 == 0
    ensures SeedAfter(v, n) & HighBits(n) == 0
    decreases n
  {
    if n > 0 {
      EvenTurns(v, n - 1);
      ZerosComeIn(SeedAfter(v, n - 1), HighBits(n - 1));
    }
  }

  /** A register that is not 0 is odd within 16 turns. */
  lemma OddSoon(v: bv16) returns (k: nat)
    requires v != 0
    ensures k < 16 && SeedAfter(v, k) & 1 != 0
  {
    SeedNotZero(v, 16);
    if forall k :: 0 <= k < 16 ==> SeedAfter(v, k) & 1 == 0 {
      EvenTurns(v, 16);
      AllBits(SeedAfter(v, 16));
    }
    k :| 0 <= k < 16 && SeedAfter(v, k) & 1 != 0;
  }

  /** The idle task runs and releases a device: A if its register is even, B if it is odd. */
  ghost predicate Releases(w: World) {
    w.cur == ID_IDLE && |w.state| == NUMBER_OF_IDS && Ready(w.state[ID_IDLE]) && w.count != 1
  }

  ghost predicate ReleasesB(w: World) {
    Releases(w) && w.seed & 1 != 0
  }

  lemma StepSeed(w: World)
    requires Good(w) && w.cur >= 0
    ensures Step(w).seed == if Releases(w) then NextSeed(w.seed) else w.seed
    ensures Releases(w) ==> |Step(w).state| == |w.state| == NUMBER_OF_IDS
    ensures Releases(w) ==>
      var id := if ReleasesB(w) then ID_DEVICE_B else ID_DEVICE_A;
      Step(w).state == w.state[id := w.state[id].(held := false)] && Step(w).cur == id
  {
    hide *;
    Ids();
    GoodShaped(w);
    StepDef(w);
    IdleRuns(w);
    if !Ready(w.state[w.cur]) || w.cur == ID_IDLE {
    } else if w.cur == ID_WORKER {
      WorkerSeed(w, Letters(w.letter, DATA_SIZE), NthLetter(w.letter, DATA_SIZE));
    } else if IsHandler(w.cur) {
      SortedSeed(w, w.cur);
      HandlerSeed(Sorted(w, w.cur), w.cur);
    } else {
      DeviceSeed(w, w.cur);
    }
  }

  lemma IdleRuns(w: World)
    requires Good(w) && w.cur >= 0
    ensures |w.state| == NUMBER_OF_IDS && w.cur < NUMBER_OF_IDS
    ensures Releases(w) <==> w.cur == ID_IDLE && Ready(w.state[ID_IDLE]) && w.count != 1
    ensures Releases(w) ==> (ReleasesB(w) <==> w.seed & 1 != 0)
    ensures w.cur == ID_IDLE && Ready(w.state[w.cur]) ==>
      && Shaped(w)
      && IdleStep(w).seed == (if w.count == 1 then w.seed else NextSeed(w.seed))
      && (w.count != 1 ==>
            var id := if w.seed & 1 != 0 then ID_DEVICE_B else ID_DEVICE_A;
            IdleStep(w).state == w.state[id := w.state[id].(held := false)] && IdleStep(w).cur == id)
  {}

  /** The worker's fields are as they were. */
  ghost predicate SameWriter(w: World, w': World) {
    w'.workerTo == w.workerTo && w'.letter == w.letter
  }

  /** No other task touches the register, and none but the worker the worker's fields. */
  lemma WorkerSeed(w: World, letters: seq<int>, letter: int)
    requires Orderly(w)
    ensures WorkerStep(w, letters, letter).seed == w.seed
    ensures var w' := WorkerStep(w, letters, letter);
      if Takes(w.state[ID_WORKER]) then w'.workerTo == Other(w.workerTo) && w'.letter == letter else SameWriter(w, w')
  {
    hide OnePlace;
    hide AllFit;
  }

  lemma SortedSeed(w: World, i: int)
    requires Orderly(w) && IsHandler(i)
    ensures Sorted(w, i).seed == w.seed && SameWriter(w, Sorted(w, i))
  {
    hide OnePlace;
    hide AllFit;
  }

  lemma HandlerSeed(w: World, i: int)
    requires Shaped(w) && AllFit(w) && IsHandler(i)
    ensures HandlerSend(w, i).seed == w.seed && SameWriter(w, HandlerSend(w, i))
  {
    hide OnePlace;
    hide AllFit;
  }

  lemma DeviceSeed(w: World, i: int)
    requires Orderly(w) && IsDevice(i)
    ensures DeviceStep(w, i).seed == w.seed && SameWriter(w, DeviceStep(w, i))
  {
    hide OnePlace;
    hide AllFit;
  }

  /** How many of the first `n` turns are idle turns that release. */
  ghost function IdleTurns(w: World, n: nat): nat
    requires Good(w)
    decreases n
  {
    if n == 0 || w.cur < 0 then 0
    else
      StepGood(w);
      (if Releases(w) then 1 else 0) + IdleTurns(Step(w), n - 1)
  }

  lemma {:induction false} SeedFirst(v: bv16, n: nat)
    ensures SeedAfter(v, n + 1) == SeedAfter(NextSeed(v), n)
  {
    if n > 0 {
      SeedFirst(v, n - 1);
    }
  }

  /** The register after any run. */
  lemma {:induction false} RegisterAfter(w: World, n: nat)
    requires Good(w)
    ensures After(w, n).seed == SeedAfter(w.seed, IdleTurns(w, n))
    decreases n
  {
    hide Good;
    hide Step;
    hide Releases;
    if n > 0 && w.cur >= 0 {
      StepGood(w);
      StepSeed(w);
      RegisterAfter(Step(w), n - 1);
      if Releases(w) {
        SeedFirst(w.seed, IdleTurns(Step(w), n - 1));
      }
    }
  }

  /** It is never 0, unless it was at the start. */
  lemma RegisterNotZero(w: World, n: nat)
    requires Good(w) && w.seed != 0
    ensures After(w, n).seed != 0
  {
    RegisterAfter(w, n);
    SeedNotZero(w.seed, IdleTurns(w, n));
  }

  /** The turn of the `k`-th release. */
  lemma {:induction false} ReleaseTurn(w: World, n: nat, k: nat) returns (m: nat)
    requires Good(w) && k < IdleTurns(w, n)
    ensures m < n && IdleTurns(w, m) == k && Releases(After(w, m))
    decreases n
  {
    hide Good;
    hide Step;
    hide Releases;
    StepGood(w);
    if Releases(w) && k == 0 {
      m := 0;
    } else {
      var l := ReleaseTurn(Step(w), n - 1, if Releases(w) then k - 1 else k);
      m := l + 1;
      assert After(w, l + 1) == After(Step(w), l);
    }
  }

  /** From any state of any run on: of 16 idle turns that release a device, one releases device B. */
  lemma DeviceBReleased(w: World, n: nat) returns (m: nat)
    requires Good(w) && w.seed != 0 && IdleTurns(w, n) >= 16
    ensures m < n && IdleTurns(w, m) < 16 && ReleasesB(After(w, m)) && After(w, m).cur >= 0
    ensures var v := After(w, m);
      |v.state| == NUMBER_OF_IDS && Step(v).state == v.state[ID_DEVICE_B := v.state[ID_DEVICE_B].(held := false)]
  {
    hide Good;
    hide Step;
    var k := OddSoon(w.seed);
    m := ReleaseTurn(w, n, k);
    RegisterAfter(w, m);
    StepSeed(After(w, m));
  }

  // ---- the letters

  /** The letters of a work packet that have not been sent on yet. */
  ghost function LettersLeft(n: Info): seq<int> {
    if n.kind == KIND_WORK && 0 <= n.a1 <= |n.a2| then n.a2[n.a1..] else []
  }

  /** The letters of a list of packets, in order. */
  ghost function Flat(l: seq<Packet>, info: map<Packet, Info>): seq<int> {
    if l == [] then [] else (if l[0] in info then LettersLeft(info[l[0]]) else []) + Flat(l[1..], info)
  }

  lemma {:induction false} FlatAppend(l: seq<Packet>, x: Packet, info: map<Packet, Info>)
    ensures Flat(l + [x], info) == Flat(l, info) + (if x in info then LettersLeft(info[x]) else [])
    decreases |l|
  {
    hide *;
    FlatEnds(x, info);
    if l == [] {
      assert l + [x] == [x];
      JoinEmpty(Flat([x], info));
    } else {
      assert (l + [x])[1..] == l[1..] + [x] && (l + [x])[0] == l[0];
      FlatAppend(l[1..], x, info);
      FlatStep(l, info);
      FlatStep(l + [x], info);
    }
  }

  lemma JoinEmpty(s: seq<int>)
    ensures [] + s == s
  {}

  lemma FlatEnds(x: Packet, info: map<Packet, Info>)
    ensures Flat([], info) == [] && Flat([x], info) == if x in info then LettersLeft(info[x]) else []
  {
    hide LettersLeft;
    assert [x][1..] == [];
  }

  lemma FlatStep(l: seq<Packet>, info: map<Packet, Info>)
    requires l != []
    ensures Flat(l, info) == (if l[0] in info then LettersLeft(info[l[0]]) else []) + Flat(l[1..], info)
  {
    hide LettersLeft;
  }

  lemma {:induction false} FlatOthers(l: seq<Packet>, x: Packet, n: Info, info: map<Packet, Info>)
    requires x !in l
    ensures Flat(l, info[x := n]) == Flat(l, info)
    decreases |l|
  {
    if l != [] {
      FlatOthers(l[1..], x, n, info);
    }
  }

  lemma FlatHead(l: seq<Packet>, info: map<Packet, Info>)
    requires l != [] && l[0] in info
    ensures Flat(l, info) == LettersLeft(info[l[0]]) + Flat(l[1..], info)
  {}

  ghost function FlatAt(w: World, p: Place): seq<int> {
    if p in w.at then Flat(w.at[p], w.info) else []
  }

  /** A move changes the letters of two places only. */
  lemma MoveFlat(w: World, from: Place, to: Place, n: Info, p: Place)
    requires Shaped(w) && OnePlace(w) && AllFit(w) && from in w.at && to in w.at && w.at[from] != [] && from != to && p in w.at
    ensures var w', x := Move(w, from, to, n), w.at[from][0];
      && x in w.info && p in w'.at
      && (p == from ==> FlatAt(w, p) == LettersLeft(w.info[x]) + FlatAt(w', p) && |w'.at[p]| == |w.at[p]| - 1)
      && (p == to ==> FlatAt(w', p) == FlatAt(w, p) + LettersLeft(n) && w'.at[p] == w.at[p] + [x] && w'.info[x] == n)
      && (p != from && p != to ==> FlatAt(w', p) == FlatAt(w, p) && w'.at[p] == w.at[p])
  {
    hide Fits;
    hide LettersLeft;
    var x := w.at[from][0];
    assert x in w.at[from] && DistinctList(w.at[from]);
    if p == from {
      assert x !in w.at[from][1..];
      FlatOthers(w.at[from][1..], x, n, w.info);
    } else if p == to {
      FlatOthers(w.at[to], x, n, w.info);
      FlatAppend(w.at[to], x, w.info[x := n]);
    } else {
      FlatOthers(w.at[p], x, n, w.info);
    }
  }

  /** The letters on the way to handler `i`'s device: of the work packets in its hands, and of those in its queue. */
  ghost function Pending(w: World, i: int): seq<int> {
    FlatAt(w, V1(i)) + FlatAt(w, Queue(i))
  }

  /** What joins the queue of a place in one turn says this. */
  ghost function Joining(w: World, w': World, p: Place): seq<Info> {
    if p in w.at && p in w'.at && |w'.at[p]| > |w.at[p]| && w'.at[p][|w'.at[p]| - 1] in w'.info
    then [w'.info[w'.at[p][|w'.at[p]| - 1]]] else []
  }

  /** The letter that a turn sends to device `i + 2`, if it sends one. */
  ghost function Sent(w: World, w': World, i: int): seq<int> {
    var j := Joining(w, w', Queue(i + 2));
    if j == [] then [] else [j[0].a1]
  }

  /** The letters that a turn writes for handler `i`, if it writes any. */
  ghost function Written(w: World, w': World, i: int): seq<int> {
    var j := Joining(w, w', Queue(i));
    if j == [] then [] else LettersLeft(j[0])
  }

  /** What is sent, and what is then on the way, is what was on the way, and what is written. */
  ghost predicate InTurn(w: World, w': World, i: int) {
    Sent(w, w', i) + Pending(w', i) == Pending(w, i) + Written(w, w', i)
  }

  /** A turn in which nothing of handler `i` happens. */
  lemma NothingHere(w: World, w': World, i: int)
    requires FlatAt(w', V1(i)) == FlatAt(w, V1(i)) && FlatAt(w', Queue(i)) == FlatAt(w, Queue(i))
    requires Queue(i) in w.at && Queue(i + 2) in w.at && Queue(i) in w'.at && Queue(i + 2) in w'.at
    requires |w'.at[Queue(i)]| <= |w.at[Queue(i)]| && |w'.at[Queue(i + 2)]| <= |w.at[Queue(i + 2)]|
    ensures InTurn(w, w', i)
  {}

  lemma SamePlacesTurn(w: World, w': World, i: int)
    requires Shaped(w) && w'.at == w.at && w'.info == w.info && IsHandler(i)
    ensures InTurn(w, w', i)
  {
    NothingHere(w, w', i);
  }

  lemma PlacesOf(w: World, i: int)
    requires Shaped(w) && IsHandler(i)
    ensures V1(i) in w.at && V2(i) in w.at && Queue(i) in w.at && Queue(i + 2) in w.at && Queue(ID_WORKER) in w.at
    ensures IsDevice(i + 2) && Dev(i + 2) in w.at && |w.state| == NUMBER_OF_IDS
  {}

  /** A packet is sent: its text is `n` but for the sender. */
  lemma SendMoves(w: World, from: Place, n: Info, sender: int)
    requires Shaped(w) && from in w.at && w.at[from] != [] && 0 < n.id < NUMBER_OF_IDS && from != Queue(n.id)
    requires 0 <= sender < NUMBER_OF_IDS
    ensures var w1 := Move(w, from, Queue(n.id), n.(id := sender));
      Queue(n.id) in w.at && Send(w, from, n, sender).at == w1.at && Send(w, from, n, sender).info == w1.info
  {}

  lemma FlatSame(w: World, w': World, p: Place)
    requires w'.at == w.at && w'.info == w.info
    ensures FlatAt(w', p) == FlatAt(w, p)
  {}

  /** What a packet that joins a queue says. */
  lemma JoinedIs(w: World, w': World, p: Place, x: Packet)
    requires p in w.at && p in w'.at && w'.at[p] == w.at[p] + [x] && x in w'.info
    ensures Joining(w, w', p) == [w'.info[x]]
  {}

  lemma WorkerInTurn(w: World, letters: seq<int>, letter: int, i: int)
    requires Orderly(w) && |letters| == DATA_SIZE && IsHandler(i)
    ensures InTurn(w, WorkerStep(w, letters, letter), i)
    ensures Written(w, WorkerStep(w, letters, letter), i)
         == if Takes(w.state[ID_WORKER]) && Other(w.workerTo) == i then letters else []
  {
    hide *;
    Ids();
    OrderlyParts(w);
    WorkerStepDef(w, letters, letter);
    PlacesOf(w, i);
    var w' := WorkerStep(w, letters, letter);
    if Takes(w.state[ID_WORKER]) {
      var w1 := AfterTake(w, ID_WORKER).(workerTo := Other(w.workerTo), letter := letter);
      var n := Info(Other(w.workerTo), KIND_WORK, 0, letters);
      var n' := n.(id := ID_WORKER);
      AfterTakeBits(w, ID_WORKER);
      SamePlaces(w, w1);
      SendMoves(w1, Queue(ID_WORKER), n, ID_WORKER);
      var w2 := Move(w1, Queue(ID_WORKER), Queue(n.id), n');
      forall p | p in w.at
        ensures FlatAt(w1, p) == FlatAt(w, p) && FlatAt(w', p) == FlatAt(w2, p)
      {
        FlatSame(w, w1, p);
        FlatSame(w2, w', p);
      }
      MoveFlat(w1, Queue(ID_WORKER), Queue(n.id), n', V1(i));
      MoveFlat(w1, Queue(ID_WORKER), Queue(n.id), n', Queue(i));
      MoveFlat(w1, Queue(ID_WORKER), Queue(n.id), n', Queue(i + 2));
      var x := w1.at[Queue(ID_WORKER)][0];
      MovedThere(w1, Queue(ID_WORKER), Queue(n.id), n');
      AllLetters(n');
      if n.id == i {
        JoinedIs(w, w', Queue(i), x);
        WorkerSends(w, w', i, n');
      } else {
        OtherHandler(w);
        NothingHere(w, w', i);
        NothingWritten(w, w', i);
      }
    } else {
      SuspendText(w, ID_WORKER);
      SuspendPlaces(w, ID_WORKER);
      SamePlacesTurn(w, w', i);
      NothingWritten(w, w', i);
    }
  }

  lemma OtherHandler(w: World)
    ensures IsHandler(Other(w.workerTo))
  {}

  lemma NothingWritten(w: World, w': World, i: int)
    requires Queue(i) in w.at && Queue(i) in w'.at && |w'.at[Queue(i)]| <= |w.at[Queue(i)]|
    ensures Written(w, w', i) == []
  {}

  lemma SuspendPlaces(w: World, i: int)
    requires 0 <= i < |w.state|
    ensures Suspend(w, i).at == w.at && Hold(w, i).at == w.at && Hold(w, i).info == w.info
  {}

  lemma MovedThere(w: World, from: Place, to: Place, n: Info)
    requires from in w.at && to in w.at && w.at[from] != [] && from != to
    ensures w.at[from][0] in Move(w, from, to, n).info && Move(w, from, to, n).info[w.at[from][0]] == n
    ensures Move(w, from, to, n).at.Keys == w.at.Keys
  {}

  lemma AllLetters(n: Info)
    requires n.kind == KIND_WORK && n.a1 == 0
    ensures LettersLeft(n) == n.a2
  {}

  lemma WorkerSends(w: World, w': World, i: int, n: Info)
    requires FlatAt(w', V1(i)) == FlatAt(w, V1(i)) && FlatAt(w', Queue(i)) == FlatAt(w, Queue(i)) + LettersLeft(n)
    requires Joining(w, w', Queue(i)) == [n] && Queue(i + 2) in w.at && Queue(i + 2) in w'.at
    requires |w'.at[Queue(i + 2)]| <= |w.at[Queue(i + 2)]|
    ensures InTurn(w, w', i) && Written(w, w', i) == LettersLeft(n)
  {
    assert FlatAt(w, V1(i)) + (FlatAt(w, Queue(i)) + LettersLeft(n)) == (FlatAt(w, V1(i)) + FlatAt(w, Queue(i))) + LettersLeft(n);
  }

  lemma DeviceInTurn(w: World, d: int, i: int)
    requires Orderly(w) && IsDevice(d) && IsHandler(i)
    ensures InTurn(w, DeviceStep(w, d), i) && Written(w, DeviceStep(w, d), i) == []
  {
    hide *;
    Ids();
    OrderlyParts(w);
    DeviceStepDef(w, d);
    PlacesOf(w, i);
    var w' := DeviceStep(w, d);
    if Takes(w.state[d]) {
      var w1, n := AfterTake(w, d), w.info[w.at[Queue(d)][0]];
      var w2 := Move(w1, Queue(d), Dev(d), n);
      AfterTakeBits(w, d);
      SamePlaces(w, w1);
      MoveState(w1, Queue(d), Dev(d), n);
      MovedThere(w1, Queue(d), Dev(d), n);
      SuspendPlaces(w2, d);
      forall p | p in w.at
        ensures FlatAt(w1, p) == FlatAt(w, p) && FlatAt(w', p) == FlatAt(w2, p)
      {
        FlatSame(w, w1, p);
        FlatSame(w2, w', p);
      }
      MoveFlat(w1, Queue(d), Dev(d), n, V1(i));
      MoveFlat(w1, Queue(d), Dev(d), n, Queue(i));
      MoveFlat(w1, Queue(d), Dev(d), n, Queue(i + 2));
      NothingHere(w, w', i);
      NothingWritten(w, w', i);
    } else if w.at[Dev(d)] == [] {
      SuspendText(w, d);
      SuspendPlaces(w, d);
      SamePlacesTurn(w, w', i);
      NothingWritten(w, w', i);
    } else {
      var n := w.info[w.at[Dev(d)][0]];
      var n' := n.(id := d);
      SendMoves(w, Dev(d), n, d);
      var w2 := Move(w, Dev(d), Queue(n.id), n');
      MovedThere(w, Dev(d), Queue(n.id), n');
      forall p | p in w.at
        ensures FlatAt(w', p) == FlatAt(w2, p)
      {
        FlatSame(w2, w', p);
      }
      MoveFlat(w, Dev(d), Queue(n.id), n', V1(i));
      MoveFlat(w, Dev(d), Queue(n.id), n', Queue(i));
      MoveFlat(w, Dev(d), Queue(n.id), n', Queue(i + 2));
      NoLetters(Queue(d - 2), n', d);
      if n.id == i {
        JoinedIs(w, w', Queue(i), w.at[Dev(d)][0]);
        WorkerSends(w, w', i, n');
      } else {
        NothingHere(w, w', i);
        NothingWritten(w, w', i);
      }
    }
  }

  /** A packet from a device has no letters to send on. */
  lemma NoLetters(p: Place, n: Info, d: int)
    requires Fits(p, n) && p == Queue(d - 2) && IsDevice(d) && n.id == d
    ensures LettersLeft(n) == [] && forall s: seq<int> :: s + LettersLeft(n) == s
  {}

  /** Sorting a packet in keeps the letters on the way, in their order. */
  lemma SortedLetters(w: World, h: int, i: int)
    requires Orderly(w) && IsHandler(h) && IsHandler(i)
    ensures var s := Sorted(w, h);
      && Shaped(s) && Pending(s, i) == Pending(w, i)
      && |s.at[Queue(i)]| <= |w.at[Queue(i)]| && |s.at[Queue(i + 2)]| == |w.at[Queue(i + 2)]|
      && Queue(i) in w.at && Queue(i + 2) in w.at
  {
    hide *;
    Ids();
    OrderlyParts(w);
    SortedDef(w, h);
    PlacesOf(w, i);
    if Takes(w.state[h]) {
      var w1, n := AfterTake(w, h), w.info[w.at[Queue(h)][0]];
      var to := if n.kind == KIND_WORK then V1(h) else V2(h);
      AfterTakeBits(w, h);
      SamePlaces(w, w1);
      MovedThere(w1, Queue(h), to, n);
      var w2 := Move(w1, Queue(h), to, n);
      ShapedMove(w1, Queue(h), to, n);
      forall p | p in w.at
        ensures FlatAt(w1, p) == FlatAt(w, p)
      {
        FlatSame(w, w1, p);
      }
      MoveFlat(w1, Queue(h), to, n, V1(i));
      MoveFlat(w1, Queue(h), to, n, Queue(i));
      MoveFlat(w1, Queue(h), to, n, Queue(i + 2));
      PendingIs(w, i);
      PendingIs(w2, i);
      if h == i {
        NotWork(n);
        var a, l, b := FlatAt(w, V1(i)), LettersLeft(n), FlatAt(w2, Queue(i));
        assert (a + l) + b == a + (l + b);
      }
    }
  }

  lemma ShapedMove(w: World, from: Place, to: Place, n: Info)
    requires Shaped(w) && from in w.at && to in w.at && w.at[from] != [] && from != to
    ensures Shaped(Move(w, from, to, n))
  {}

  lemma PendingIs(w: World, i: int)
    ensures Pending(w, i) == FlatAt(w, V1(i)) + FlatAt(w, Queue(i))
  {}

  lemma NotWork(n: Info)
    ensures n.kind != KIND_WORK ==> LettersLeft(n) == [] && forall s: seq<int> :: [] + s == s
  {}

  lemma HandlerInTurn(s: World, h: int, i: int)
    requires Orderly(s) && IsHandler(h) && IsHandler(i)
    ensures InTurn(s, HandlerSend(s, h), i) && Shaped(HandlerSend(s, h))
    ensures |HandlerSend(s, h).at[Queue(i)]| <= |s.at[Queue(i)]| && Queue(i) in s.at
  {
    hide *;
    Ids();
    OrderlyParts(s);
    HandlerSendDef(s, h);
    PlacesOf(s, i);
    PlacesOf(s, h);
    HandlerFirst(s, h);
    HandlerDevice(s, h);
    var w' := HandlerSend(s, h);
    if s.at[V1(h)] == [] || (s.info[s.at[V1(h)][0]].a1 < DATA_SIZE && s.at[V2(h)] == []) {
      SuspendText(s, h);
      SuspendPlaces(s, h);
      ShapedSuspend(s, h);
      SamePlacesTurn(s, w', i);
    } else {
      var x := s.at[V1(h)][0];
      var n := s.info[x];
      if n.a1 >= DATA_SIZE {
        var n' := n.(id := h);
        SendMoves(s, V1(h), n, h);
        ShapedSend(s, V1(h), n, h);
        var w2 := Move(s, V1(h), Queue(ID_WORKER), n');
        forall p | p in s.at
          ensures FlatAt(w', p) == FlatAt(w2, p)
        {
          FlatSame(w2, w', p);
        }
        MoveFlat(s, V1(h), Queue(ID_WORKER), n', V1(i));
        MoveFlat(s, V1(h), Queue(ID_WORKER), n', Queue(i));
        MoveFlat(s, V1(h), Queue(ID_WORKER), n', Queue(i + 2));
        AllSent(n);
        MovedThere(s, V1(h), Queue(ID_WORKER), n');
        NothingHere(s, w', i);
      } else {
        LetterInTurn(s, h, i);
      }
    }
  }

  lemma ShapedSuspend(w: World, i: int)
    requires Shaped(w) && 0 <= i < NUMBER_OF_IDS
    ensures Shaped(Suspend(w, i))
  {}

  lemma ShapedSend(w: World, from: Place, n: Info, sender: int)
    requires Shaped(w) && from in w.at && w.at[from] != [] && 0 < n.id < NUMBER_OF_IDS && from != Queue(n.id)
    requires 0 <= sender < NUMBER_OF_IDS
    ensures Shaped(Send(w, from, n, sender))
  {}

  lemma AllSent(n: Info)
    requires n.a1 == DATA_SIZE == |n.a2|
    ensures LettersLeft(n) == [] && forall s: seq<int> :: [] + s == s
  {}

  /** The first letter of the first work packet goes out with the first device packet. */
  lemma LetterInTurn(s: World, h: int, i: int)
    requires Orderly(s) && IsHandler(h) && IsHandler(i) && V1(h) in s.at && V2(h) in s.at && s.at[V1(h)] != [] && s.at[V2(h)] != []
    requires s.at[V1(h)][0] in s.info && s.info[s.at[V1(h)][0]].a1 < DATA_SIZE
    ensures InTurn(s, HandlerSend(s, h), i) && Shaped(HandlerSend(s, h))
    ensures |HandlerSend(s, h).at[Queue(i)]| <= |s.at[Queue(i)]| && Queue(i) in s.at
  {
    hide *;
    Ids();
    OrderlyParts(s);
    HandlerSendDef(s, h);
    PlacesOf(s, i);
    PlacesOf(s, h);
    HandlerFirst(s, h);
    var w' := HandlerSend(s, h);
    var x, v := s.at[V1(h)][0], s.at[V2(h)][0];
    var n := s.info[x];
    var n1 := n.(a1 := n.a1 + 1);
    var m := s.info[v].(a1 := n.a2[n.a1]);
    var m' := m.(id := h);
    var u := s.(info := s.info[x := n1]);
    InfoOrderly(s, V1(h), n1);
    OrderlyParts(u);
    SendMoves(u, V2(h), m, h);
    ShapedSend(u, V2(h), m, h);
    var w2 := Move(u, V2(h), Queue(h + 2), m');
    forall p | p in s.at
      ensures FlatAt(w', p) == FlatAt(w2, p)
    {
      FlatSame(w2, w', p);
    }
    InfoFlat(s, V1(h), n1, V1(i));
    InfoFlat(s, V1(h), n1, Queue(i));
    MoveFlat(u, V2(h), Queue(h + 2), m', V1(i));
    MoveFlat(u, V2(h), Queue(h + 2), m', Queue(i));
    MoveFlat(u, V2(h), Queue(h + 2), m', Queue(i + 2));
    MovedThere(u, V2(h), Queue(h + 2), m');
    if h == i {
      JoinedIs(s, w', Queue(i + 2), v);
      FirstLetter(n);
      LetterSends(s, w', i, n, n1, m', Flat(s.at[V1(h)][1..], s.info));
    } else {
      NothingHere(s, w', i);
    }
  }

  lemma FirstLetter(n: Info)
    requires 0 <= n.a1 < DATA_SIZE == |n.a2| && n.kind == KIND_WORK
    ensures LettersLeft(n) == [n.a2[n.a1]] + LettersLeft(n.(a1 := n.a1 + 1))
  {}

  lemma LetterSends(s: World, w': World, i: int, n: Info, n1: Info, m: Info, rest: seq<int>)
    requires LettersLeft(n) == [m.a1] + LettersLeft(n1)
    requires FlatAt(s, V1(i)) == LettersLeft(n) + rest && FlatAt(w', V1(i)) == LettersLeft(n1) + rest
    requires FlatAt(w', Queue(i)) == FlatAt(s, Queue(i)) && Joining(s, w', Queue(i + 2)) == [m]
    requires Queue(i) in s.at && Queue(i) in w'.at && |w'.at[Queue(i)]| <= |s.at[Queue(i)]|
    ensures InTurn(s, w', i)
  {
    var a, q := LettersLeft(n1), FlatAt(s, Queue(i));
    assert [m.a1] + ((a + rest) + q) == (([m.a1] + a) + rest) + q;
  }

  /** Writing into the first packet of a place. */
  lemma InfoFlat(s: World, p: Place, n: Info, q: Place)
    requires Shaped(s) && OnePlace(s) && AllFit(s) && p in s.at && s.at[p] != [] && q in s.at
    ensures var x := s.at[p][0]; var u := s.(info := s.info[x := n]);
      && x in s.info
      && (q == p ==> FlatAt(s, q) == LettersLeft(s.info[x]) + Flat(s.at[p][1..], s.info))
      && (q == p ==> FlatAt(u, q) == LettersLeft(n) + Flat(s.at[p][1..], s.info))
      && (q != p ==> FlatAt(u, q) == FlatAt(s, q))
  {
    hide Fits;
    hide LettersLeft;
    var x := s.at[p][0];
    assert x in s.at[p] && DistinctList(s.at[p]);
    if q == p {
      assert x !in s.at[p][1..];
      FlatOthers(s.at[p][1..], x, n, s.info);
    } else {
      FlatOthers(s.at[q], x, n, s.info);
    }
  }

  /** Every turn of the machine, for either handler. */
  lemma StepInTurn(w: World, i: int)
    requires Good(w) && w.cur >= 0 && IsHandler(i)
    ensures InTurn(w, Step(w), i)
    ensures Written(w, Step(w), i) == if Writes(w) && Other(w.workerTo) == i then Letters(w.letter, DATA_SIZE) else []
  {
    hide *;
    Ids();
    GoodShaped(w);
    StepDef(w);
    PlacesOf(w, i);
    WritesIs(w);
    if !Ready(w.state[w.cur]) {
      SamePlacesTurn(w, Step(w), i);
      NothingWritten(w, Step(w), i);
    } else if w.cur == ID_IDLE {
      IdleDef(w);
      SamePlacesTurn(w, Step(w), i);
      NothingWritten(w, Step(w), i);
    } else if w.cur == ID_WORKER {
      WorkerInTurn(w, Letters(w.letter, DATA_SIZE), NthLetter(w.letter, DATA_SIZE), i);
    } else if IsHandler(w.cur) {
      var s := Sorted(w, w.cur);
      SortedLetters(w, w.cur, i);
      HandlerInTurn(s, w.cur, i);
      PlacesOf(Step(w), i);
      TurnJoined(w, s, Step(w), i);
      NothingWritten(w, Step(w), i);
    } else {
      DeviceInTurn(w, w.cur, i);
    }
  }

  lemma TurnJoined(w: World, s: World, w': World, i: int)
    requires Pending(s, i) == Pending(w, i) && InTurn(s, w', i) && Queue(i) in w.at && Queue(i + 2) in w.at
    requires Queue(i) in s.at && Queue(i + 2) in s.at && Queue(i) in w'.at
    requires |w'.at[Queue(i)]| <= |s.at[Queue(i)]| <= |w.at[Queue(i)]| && |s.at[Queue(i + 2)]| == |w.at[Queue(i + 2)]|
    ensures InTurn(w, w', i)
  {}

  /** The worker runs on a packet. */
  ghost predicate Writes(w: World) {
    w.cur == ID_WORKER && |w.state| == NUMBER_OF_IDS && Takes(w.state[ID_WORKER])
  }

  lemma WritesIs(w: World)
    requires Good(w) && w.cur >= 0
    ensures |w.state| == NUMBER_OF_IDS && w.cur < NUMBER_OF_IDS
    ensures Writes(w) <==> w.cur == ID_WORKER && Takes(w.state[ID_WORKER])
    ensures Writes(w) ==> Ready(w.state[ID_WORKER])
  {}

  lemma StepWriter(w: World)
    requires Good(w) && w.cur >= 0
    ensures if Writes(w) then Step(w).workerTo == Other(w.workerTo) && Step(w).letter == NthLetter(w.letter, DATA_SIZE)
      else SameWriter(w, Step(w))
  {
    hide *;
    Ids();
    GoodShaped(w);
    StepDef(w);
    WritesIs(w);
    WriterSame(w, Step(w));
    if !Ready(w.state[w.cur]) {
    } else if w.cur == ID_IDLE {
      IdleWriter(w);
    } else if w.cur == ID_WORKER {
      WorkerSeed(w, Letters(w.letter, DATA_SIZE), NthLetter(w.letter, DATA_SIZE));
    } else if IsHandler(w.cur) {
      SortedSeed(w, w.cur);
      HandlerSeed(Sorted(w, w.cur), w.cur);
      WriterSame(w, Sorted(w, w.cur));
      WriterSame(Sorted(w, w.cur), Step(w));
    } else {
      DeviceSeed(w, w.cur);
    }
  }

  lemma WriterSame(w: World, w': World)
    ensures SameWriter(w, w') <==> w'.workerTo == w.workerTo && w'.letter == w.letter
  {}

  lemma IdleWriter(w: World)
    requires Shaped(w)
    ensures SameWriter(w, IdleStep(w))
  {}

  // ---- over whole runs

  /** One more turn. */
  lemma {:induction false} AfterNext(w: World, n: nat)
    requires Good(w)
    ensures var v := After(w, n);
      After(w, n + 1) == if v.cur < 0 then v else Step(v)
    decreases n
  {
    hide Good;
    hide Step;
    if n > 0 && w.cur >= 0 {
      StepGood(w);
      AfterNext(Step(w), n - 1);
    } else if w.cur >= 0 {
      StepGood(w);
      assert After(w, 1) == After(Step(w), 0);
    }
  }

  /** The letters that device `i + 2` is sent in the first `n` turns. */
  ghost function AllSentTo(w: World, n: nat, i: int): seq<int>
    requires Good(w)
    decreases n
  {
    if n == 0 then [] else
      var v := After(w, n - 1);
      AllSentTo(w, n - 1, i) + if v.cur < 0 then [] else Sent(v, Step(v), i)
  }

  /** The letters that the worker writes for handler `i` in them. */
  ghost function AllWrittenFor(w: World, n: nat, i: int): seq<int>
    requires Good(w)
    decreases n
  {
    if n == 0 then [] else
      var v := After(w, n - 1);
      AllWrittenFor(w, n - 1, i) + if v.cur < 0 then [] else Written(v, Step(v), i)
  }

  /** No letter is lost, doubled or overtaken: what the device was sent, and then what is on the way to it, is what was
      on the way at the start and then what the worker wrote. */
  lemma {:induction false} LettersConserved(w: World, n: nat, i: int)
    requires Good(w) && IsHandler(i)
    ensures AllSentTo(w, n, i) + Pending(After(w, n), i) == Pending(w, i) + AllWrittenFor(w, n, i)
    decreases n
  {
    hide Good;
    hide Step;
    hide Pending;
    hide Sent;
    hide Written;
    hide After;
    if n == 0 {
      AfterNone(w);
      assert [] + Pending(w, i) == Pending(w, i) + [];
    } else {
      LettersConserved(w, n - 1, i);
      AfterNext(w, n - 1);
      var v := After(w, n - 1);
      var out, put, start := AllSentTo(w, n - 1, i), AllWrittenFor(w, n - 1, i), Pending(w, i);
      if v.cur >= 0 {
        StepInTurn(v, i);
        OneTurn(v, i);
        assert (out + Sent(v, Step(v), i)) + Pending(Step(v), i) == out + (Sent(v, Step(v), i) + Pending(Step(v), i));
        assert out + (Pending(v, i) + Written(v, Step(v), i)) == (out + Pending(v, i)) + Written(v, Step(v), i);
        assert (start + put) + Written(v, Step(v), i) == start + (put + Written(v, Step(v), i));
      } else {
        assert out + [] == out && put + [] == put;
      }
    }
  }

  lemma AfterNone(w: World)
    requires Good(w)
    ensures After(w, 0) == w
  {}

  lemma OneTurn(v: World, i: int)
    requires Good(v) && v.cur >= 0 && InTurn(v, Step(v), i)
    ensures Sent(v, Step(v), i) + Pending(Step(v), i) == Pending(v, i) + Written(v, Step(v), i)
  {}

  /** How many packets the worker has filled in the first `n` turns. */
  ghost function Filled(w: World, n: nat): nat
    requires Good(w)
    decreases n
  {
    if n == 0 then 0 else
      var v := After(w, n - 1);
      Filled(w, n - 1) + if v.cur >= 0 && Writes(v) then 1 else 0
  }

  /** The `k`-th packet, from 0 on, goes to handler B if `k` is even, to handler A if it is odd. */
  ghost function HandlerOf(k: nat): int {
    if k % 2 == 0 then ID_HANDLER_B else ID_HANDLER_A
  }

  /** It holds the next four letters of the alphabet, which begins again after its 26. */
  ghost function FourLetters(k: nat): (r: seq<int>)
    ensures |r| == 4
  {
    seq(4, j requires 0 <= j < 4 => (4 * k + j) % 26 + 1)
  }

  /** The letters of those of the first `m` packets that go to handler `i`. */
  ghost function LettersFor(i: int, m: nat): seq<int> {
    if m == 0 then [] else LettersFor(i, m - 1) + if HandlerOf(m - 1) == i then FourLetters(m - 1) else []
  }

  /** The worker's letter after `m` packets. */
  ghost function LetterAfter(m: nat): int {
    if m == 0 then 0 else (4 * m - 1) % 26 + 1
  }

  lemma FourNext(m: nat)
    ensures Letters(LetterAfter(m), DATA_SIZE) == FourLetters(m) && NthLetter(LetterAfter(m), DATA_SIZE) == LetterAfter(m + 1)
  {
    var l := LetterAfter(m);
    assert NthLetter(l, 0) == l;
    NextInCycle(4 * m, l);
    assert NthLetter(l, 1) == NextLetter(NthLetter(l, 0));
    NextInCycle(4 * m + 1, NthLetter(l, 1));
    assert NthLetter(l, 2) == NextLetter(NthLetter(l, 1));
    NextInCycle(4 * m + 2, NthLetter(l, 2));
    assert NthLetter(l, 3) == NextLetter(NthLetter(l, 2));
    NextInCycle(4 * m + 3, NthLetter(l, 3));
    assert NthLetter(l, 4) == NextLetter(NthLetter(l, 3));
  }

  lemma NextInCycle(k: nat, l: int)
    requires if k == 0 then l == 0 else l == (k - 1) % 26 + 1
    ensures NextLetter(l) == k % 26 + 1
  {}

  /** From the start of the benchmark: what the worker has written for a handler, and where the worker then is. */
  lemma {:induction false} WorkerWrites(w: World, n: nat, i: int)
    requires Good(w) && IsHandler(i) && w.letter == 0 && w.workerTo == ID_HANDLER_A
    ensures var m := Filled(w, n);
      && AllWrittenFor(w, n, i) == LettersFor(i, m) && After(w, n).letter == LetterAfter(m)
      && After(w, n).workerTo == if m % 2 == 0 then ID_HANDLER_A else ID_HANDLER_B
    decreases n
  {
    hide *;
    Ids();
    if n == 0 {
      AfterNone(w);
      NothingFilled(w, i);
    } else {
      WorkerWrites(w, n - 1, i);
      AfterNext(w, n - 1);
      var v, m := After(w, n - 1), Filled(w, n - 1);
      FilledNext(w, n, i);
      LettersForNext(i, m);
      if v.cur >= 0 {
        StepInTurn(v, i);
        StepWriter(v);
        WriterSame(v, Step(v));
        FourNext(m);
        OtherIs(v);
      }
      assert LettersFor(i, m) + [] == LettersFor(i, m);
    }
  }

  lemma NothingFilled(w: World, i: int)
    requires Good(w)
    ensures Filled(w, 0) == 0 && AllWrittenFor(w, 0, i) == LettersFor(i, 0) && LetterAfter(0) == 0
  {}

  lemma FilledNext(w: World, n: nat, i: int)
    requires Good(w) && n > 0
    ensures var v := After(w, n - 1);
      && Good(v) && Filled(w, n) == Filled(w, n - 1) + (if v.cur >= 0 && Writes(v) then 1 else 0)
      && AllWrittenFor(w, n, i) == AllWrittenFor(w, n - 1, i) + if v.cur < 0 then [] else Written(v, Step(v), i)
  {
    hide Good;
    hide Written;
    hide After;
  }

  lemma LettersForNext(i: int, m: nat)
    ensures LettersFor(i, m + 1) == LettersFor(i, m) + if HandlerOf(m) == i then FourLetters(m) else []
    ensures HandlerOf(m) == if m % 2 == 0 then ID_HANDLER_B else ID_HANDLER_A
  {}

  lemma OtherIs(w: World)
    ensures Other(w.workerTo) == if w.workerTo == ID_HANDLER_A then ID_HANDLER_B else ID_HANDLER_A
  {}

  /** In every state of every run of the benchmark: a device has been sent the letters of its packets in their order, up
      to those that are still on the way. */
  lemma LettersInOrder(w: World, n: nat, i: int)
    requires Good(w) && IsHandler(i) && w.letter == 0 && w.workerTo == ID_HANDLER_A && Pending(w, i) == []
    ensures AllSentTo(w, n, i) + Pending(After(w, n), i) == LettersFor(i, Filled(w, n))
  {
    LettersConserved(w, n, i);
    WorkerWrites(w, n, i);
    hide *;
    assert [] + AllWrittenFor(w, n, i) == AllWrittenFor(w, n, i);
  }

  // ---- the counts that the benchmark checks

  /** In this turn the task that runs is held. */
  ghost predicate HoldsNow(w: World)
    requires Good(w) && w.cur >= 0
  {
    Ready(w.state[w.cur]) && |Step(w).state| == NUMBER_OF_IDS && Step(w).state[w.cur].held
  }

  /** In this turn some task's queue grows. */
  ghost predicate QueuesNow(w: World)
    requires Good(w) && w.cur >= 0
  {
    exists k :: 0 <= k < NUMBER_OF_IDS && Queue(k) in w.at && Queue(k) in Step(w).at && |Step(w).at[Queue(k)]| > |w.at[Queue(k)]|
  }

  /** Which turns those are, from what the tasks have. */
  lemma TurnShows(w: World)
    requires Good(w) && w.cur >= 0
    ensures w.cur < |w.state| && Shaped(w)
    ensures HoldsNow(w) <==> Ready(w.state[w.cur]) && HoldsItself(w)
    ensures QueuesNow(w) <==> Ready(w.state[w.cur]) && Posts(w)
  {
    hide *;
    Ids();
    GoodShaped(w);
    StepGood(w);
    GoodShaped(Step(w));
    ProjectInOrder(w);
    ProjectInOrder(Step(w));
    StepDef(w);
    var call := StepIsTurn(w);
    NowIs(w);
    if Ready(w.state[w.cur]) {
      var d := Project(w);
      CallIsParts(call, HoldsItself(w), Posts(w), w.cur);
      CallShows(d, call);
      QueuesLonger(w, d, Project(Step(w)));
    } else {
      SameLengths(w);
    }
  }

  lemma NowIs(w: World)
    requires Good(w) && w.cur >= 0 && Good(Step(w))
    ensures w.cur < NUMBER_OF_IDS == |Step(w).state| == |w.state| && forall k :: 0 <= k < NUMBER_OF_IDS ==> Queue(k) in w.at && Queue(k) in Step(w).at
    ensures HoldsNow(w) <==> Ready(w.state[w.cur]) && Step(w).state[w.cur].held
    ensures QueuesNow(w) <==> exists k :: 0 <= k < NUMBER_OF_IDS && |Step(w).at[Queue(k)]| > |w.at[Queue(k)]|
  {
    hide Step;
  }

  lemma CallIsParts(call: Call, holds: bool, posts: bool, cur: int)
    requires CallIs(call, holds, posts, cur)
    ensures (call.HoldCurrent? <==> holds) && (call.QueuePacket? <==> posts) && (call.QueuePacket? ==> call.id != 5 - cur)
  {}

  lemma QueuesLonger(w: World, d: Dispatch, e: Dispatch)
    requires Good(w) && w.cur >= 0 && Good(Step(w)) && |d.queued| == |e.queued| == 6
    requires forall k :: 0 <= k < 6 ==> Queue(k) in w.at && Queue(k) in Step(w).at
    requires forall i :: 0 <= i < 6 ==> d.queued[5 - i] == |w.at[Queue(i)]| && e.queued[5 - i] == |Step(w).at[Queue(i)]|
    ensures (exists k :: 0 <= k < 6 && e.queued[k] > d.queued[k])
       <==> exists k :: 0 <= k < NUMBER_OF_IDS && |Step(w).at[Queue(k)]| > |w.at[Queue(k)]|
  {
    hide Good;
    hide Step;
    if k :| 0 <= k < 6 && e.queued[k] > d.queued[k] {
      var i := 5 - k;
      assert d.queued[5 - i] == |w.at[Queue(i)]| && e.queued[5 - i] == |Step(w).at[Queue(i)]|;
      assert |Step(w).at[Queue(i)]| > |w.at[Queue(i)]|;
    }
    if i :| 0 <= i < NUMBER_OF_IDS && |Step(w).at[Queue(i)]| > |w.at[Queue(i)]| {
      assert e.queued[5 - i] > d.queued[5 - i];
    }
  }

  lemma SameLengths(w: World)
    requires Good(w) && w.cur >= 0 && w.cur < |w.state| && !Ready(w.state[w.cur])
    ensures Step(w).at == w.at
  {}

  /** How many of the first `n` turns hold a task, and in how many a queue grows. */
  ghost function Holdings(w: World, n: nat): nat
    requires Good(w)
    decreases n
  {
    if n == 0 then 0 else
      var v := After(w, n - 1);
      Holdings(w, n - 1) + if v.cur >= 0 && HoldsNow(v) then 1 else 0
  }

  ghost function Queueings(w: World, n: nat): nat
    requires Good(w)
    decreases n
  {
    if n == 0 then 0 else
      var v := After(w, n - 1);
      Queueings(w, n - 1) + if v.cur >= 0 && QueuesNow(v) then 1 else 0
  }

  lemma CountsNext(w: World, n: nat)
    requires Good(w)
    ensures Holdings(w, 0) == 0 && Queueings(w, 0) == 0
    ensures var v := After(w, n);
      v.cur >= 0 ==>
        && After(w, n + 1) == Step(v) && Holdings(w, n + 1) == Holdings(w, n) + (if HoldsNow(v) then 1 else 0)
        && Queueings(w, n + 1) == Queueings(w, n) + (if QueuesNow(v) then 1 else 0)
  {
    hide Good;
    hide Step;
    hide HoldsNow;
    hide QueuesNow;
    hide After;
    AfterNext(w, n);
  }
}
