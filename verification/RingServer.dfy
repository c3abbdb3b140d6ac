/** The threaded bounded buffer (lab_sockets/lab_03/lab_03/server_1.c): any
    number of client threads, each serving an arbitrary stream of requests. The
    store into the ring and the load and store of each index are single steps. */
module RingServer {
  import BoundedQueue
  import opened Semaphores
  import opened Tally

  const SIZE := BoundedQueue.CAPACITY
  const EMPTY := 0
  const FULL := 1
  const MUTEX := 2

  const START_PRODUCE := [SemBuf(EMPTY, -1, false), SemBuf(MUTEX, -1, false)]
  const STOP_PRODUCE := [SemBuf(MUTEX, 1, false), SemBuf(FULL, 1, false)]
  const START_CONSUME := [SemBuf(FULL, -1, false), SemBuf(MUTEX, -1, false)]
  const STOP_CONSUME := [SemBuf(MUTEX, 1, false), SemBuf(EMPTY, 1, false)]

  /** What recv delivers to an idle thread. */
  datatype Request = Put(letter: char) | Get | Unknown

  datatype PC =
    | Idle
    | PStart(c: char) | PStore(c: char) | PLoadTail | PStoreTail(v: int) | PStop
    | CStart | CLoad | CLoadHead | CStoreHead(v: int) | CStop

  /** A turn of a thread; the request matters only when the thread is idle. */
  datatype Turn = Turn(thread: nat, request: Request)

  /** The semaphore set, the globals, the threads and, as history, the letters
      stored into and loaded from the ring. */
  datatype State = State(
    sems: seq<int>, ring: seq<char>, head: int, tail: int, pcs: seq<PC>,
    puts: seq<char>, gots: seq<char>)

  predicate WellFormed(s: State) {
    |s.sems| == 3 && |s.ring| == SIZE && 0 <= s.head < SIZE && 0 <= s.tail < SIZE
    && forall t :: 0 <= t < |s.pcs| ==> Bounded(s.pcs[t])
  }

  predicate Bounded(pc: PC) {
    (pc.PStoreTail? || pc.CStoreHead?) ==> 0 <= pc.v < SIZE
  }

  /** The semop call a thread stands at, if any. */
  function CallAt(pc: PC): seq<SemBuf> {
    match pc
    case PStart(_) => START_PRODUCE
    case PStop => STOP_PRODUCE
    case CStart => START_CONSUME
    case CStop => STOP_CONSUME
    case _ => []
  }

  predicate Enabled(s: State, t: nat)
    requires WellFormed(s) && t < |s.pcs|
  {
    Semop(s.sems, CallAt(s.pcs[t])).Done?
  }

  function NextPC(s: State, pc: PC, request: Request): PC {
    match pc
    case Idle => (match request case Put(c) => PStart(c) case Get => CStart case Unknown => Idle)
    case PStart(c) => PStore(c)
    case PStore(_) => PLoadTail
    case PLoadTail => PStoreTail(s.tail)
    case PStoreTail(_) => PStop
    case PStop => Idle
    case CStart => CLoad
    case CLoad => CLoadHead
    case CLoadHead => CStoreHead(s.head)
    case CStoreHead(_) => CStop
    case CStop => Idle
  }

  function Next(s: State, turn: Turn): (r: State)
    requires WellFormed(s) && turn.thread < |s.pcs| && Enabled(s, turn.thread)
    ensures WellFormed(r) && |r.pcs| == |s.pcs|
  {
    var pc := s.pcs[turn.thread];
    var s1 := s.(pcs := s.pcs[turn.thread := NextPC(s, pc, turn.request)]);
    match pc
    case PStore(c) => s1.(ring := s.ring[s.tail := c], puts := s.puts + [c])
    case PStoreTail(v) => s1.(tail := (v + 1) % SIZE)
    case CLoad => s1.(gots := s.gots + [s.ring[s.head]])
    case CStoreHead(v) => s1.(head := (v + 1) % SIZE)
    case _ => s1.(sems := Semop(s.sems, CallAt(pc)).sems)
  }

  predicate Initial(s: State) {
    && s.sems == [SIZE, 0, 1] && |s.ring| == SIZE && s.head == 0 && s.tail == 0
    && (forall t :: 0 <= t < |s.pcs| ==> s.pcs[t] == Idle)
    && s.puts == [] && s.gots == []
  }

  function Exec(s: State, turns: seq<Turn>): (r: State)
    requires WellFormed(s) && forall k :: 0 <= k < |turns| ==> turns[k].thread < |s.pcs|
    ensures WellFormed(r) && |r.pcs| == |s.pcs|
    decreases |turns|
  {
    if turns == [] then s
    else Exec(if Enabled(s, turns[0].thread) then Next(s, turns[0]) else s, turns[1..])
  }

  // ---- The global invariant ----

  /** A thread between a completed start call and its stop call. */
  function Inside(pc: PC): nat {
    Bit(!(pc.Idle? || pc.PStart? || pc.CStart?))
  }

  function BeforePut(pc: PC): nat { Bit(pc.PStore?) }

  function AfterPut(pc: PC): nat { Bit(pc.PLoadTail? || pc.PStoreTail? || pc.PStop?) }

  function TailBehind(pc: PC): nat { Bit(pc.PLoadTail? || pc.PStoreTail?) }

  function BeforeGet(pc: PC): nat { Bit(pc.CLoad?) }

  function AfterGet(pc: PC): nat { Bit(pc.CLoadHead? || pc.CStoreHead? || pc.CStop?) }

  function HeadBehind(pc: PC): nat { Bit(pc.CLoadHead? || pc.CStoreHead?) }

  /** The semaphores count free cells, unclaimed letters and the lock. */
  predicate SemsCount(s: State)
    requires WellFormed(s)
  {
    var p, g := |s.puts|, |s.gots|;
    && s.sems[EMPTY] == SIZE - (p + Total(s.pcs, BeforePut)) + (g - Total(s.pcs, AfterGet))
    && s.sems[FULL] == (p - Total(s.pcs, AfterPut)) - (g + Total(s.pcs, BeforeGet))
    && s.sems[MUTEX] == 1 - Total(s.pcs, Inside)
    && s.sems[EMPTY] >= 0 && s.sems[FULL] >= 0 && s.sems[MUTEX] >= 0
  }

  predicate Indices(s: State) {
    && |s.puts| >= Total(s.pcs, TailBehind) && |s.gots| >= Total(s.pcs, HeadBehind)
    && s.tail == (|s.puts| - Total(s.pcs, TailBehind)) % SIZE
    && s.head == (|s.gots| - Total(s.pcs, HeadBehind)) % SIZE
    && forall t :: 0 <= t < |s.pcs| ==> Local(s, s.pcs[t])
  }

  predicate Local(s: State, pc: PC) {
    && (pc.PStoreTail? ==> pc.v == s.tail)
    && (pc.CStoreHead? ==> pc.v == s.head)
  }

  /** The letters got are a prefix of the letters put, at most SIZE are in
      flight and each of them is still in its cell. */
  predicate Contents(s: State)
    requires |s.ring| == SIZE
  {
    && s.gots <= s.puts
    && |s.puts| - |s.gots| <= SIZE
    && forall k :: |s.gots| <= k < |s.puts| ==> s.ring[k % SIZE] == s.puts[k]
  }

  predicate Inv(s: State) {
    WellFormed(s) && SemsCount(s) && Indices(s) && Contents(s)
  }

  lemma InitialInv(s: State)
    requires Initial(s)
    ensures Inv(s)
  {
    TotalZero(s.pcs, Inside);
    TotalZero(s.pcs, BeforePut);
    TotalZero(s.pcs, AfterPut);
    TotalZero(s.pcs, TailBehind);
    TotalZero(s.pcs, BeforeGet);
    TotalZero(s.pcs, AfterGet);
    TotalZero(s.pcs, HeadBehind);
  }

  /** The effect of the four calls, each as one atomic change. */
  lemma StartProduce(sems: seq<int>, ops: seq<SemBuf>)
    requires |sems| == 3 && ops == START_PRODUCE
    ensures Semop(sems, ops) ==
            if sems[EMPTY] >= 1 && sems[MUTEX] >= 1
            then Done(sems[EMPTY := sems[EMPTY] - 1][MUTEX := sems[MUTEX] - 1]) else Blocks
  {
    SemopTwo(sems, ops);
  }

  lemma StopProduce(sems: seq<int>, ops: seq<SemBuf>)
    requires |sems| == 3 && ops == STOP_PRODUCE
    ensures Semop(sems, ops) == Done(sems[MUTEX := sems[MUTEX] + 1][FULL := sems[FULL] + 1])
  {
    SemopTwo(sems, ops);
  }

  lemma StartConsume(sems: seq<int>, ops: seq<SemBuf>)
    requires |sems| == 3 && ops == START_CONSUME
    ensures Semop(sems, ops) ==
            if sems[FULL] >= 1 && sems[MUTEX] >= 1
            then Done(sems[FULL := sems[FULL] - 1][MUTEX := sems[MUTEX] - 1]) else Blocks
  {
    SemopTwo(sems, ops);
  }

  lemma StopConsume(sems: seq<int>, ops: seq<SemBuf>)
    requires |sems| == 3 && ops == STOP_CONSUME
    ensures Semop(sems, ops) == Done(sems[MUTEX := sems[MUTEX] + 1][EMPTY := sems[EMPTY] + 1])
  {
    SemopTwo(sems, ops);
  }

  /** How far a call moves the semaphores. */
  lemma SemsMove(sems: seq<int>, pc: PC, pc': PC)
    requires |sems| == 3 && Semop(sems, CallAt(pc)).Done?
    requires (pc.PStart? ==> pc'.PStore?) && (pc.CStart? ==> pc'.CLoad?)
    requires pc.PStop? || pc.CStop? ==> pc' == Idle
    requires pc.PStart? || pc.PStop? || pc.CStart? || pc.CStop?
    ensures var after := Semop(sems, CallAt(pc)).sems;
            && after[EMPTY] == sems[EMPTY] - BeforePut(pc') + AfterGet(pc)
            && after[FULL] == sems[FULL] + AfterPut(pc) - BeforeGet(pc')
            && after[MUTEX] == sems[MUTEX] + Inside(pc) - Inside(pc')
            && (sems[EMPTY] >= 0 && sems[FULL] >= 0 && sems[MUTEX] >= 0 ==>
                after[EMPTY] >= 0 && after[FULL] >= 0 && after[MUTEX] >= 0)
  {
    match pc {
      case PStart(_) => StartProduce(sems, START_PRODUCE);
      case PStop => StopProduce(sems, STOP_PRODUCE);
      case CStart => StartConsume(sems, START_CONSUME);
      case CStop => StopConsume(sems, STOP_CONSUME);
    }
  }

  /** How far a step moves p, g and the semaphores, read off the positions. */
  lemma CallMove(s: State, turn: Turn)
    requires WellFormed(s) && turn.thread < |s.pcs| && Enabled(s, turn.thread)
    ensures var pc := s.pcs[turn.thread]; var pc' := NextPC(s, pc, turn.request); var s' := Next(s, turn);
            && |s'.puts| == |s.puts| + BeforePut(pc) && |s'.gots| == |s.gots| + BeforeGet(pc)
            && s'.sems[EMPTY] == s.sems[EMPTY] - BeforePut(pc') + AfterGet(pc) - AfterGet(pc') + BeforeGet(pc)
            && s'.sems[FULL] == s.sems[FULL] + AfterPut(pc) - AfterPut(pc') + BeforePut(pc) - BeforeGet(pc')
            && s'.sems[MUTEX] == s.sems[MUTEX] + Inside(pc) - Inside(pc')
            && (s.sems[EMPTY] >= 0 && s.sems[FULL] >= 0 && s.sems[MUTEX] >= 0 ==>
                s'.sems[EMPTY] >= 0 && s'.sems[FULL] >= 0 && s'.sems[MUTEX] >= 0)
  {
    var pc := s.pcs[turn.thread];
    if pc.PStart? || pc.PStop? || pc.CStart? || pc.CStop? {
      SemsMove(s.sems, pc, NextPC(s, pc, turn.request));
    } else {
      assert Next(s, turn).sems == s.sems;
    }
  }

  /** The weights of the only thread inside. */
  lemma Alone(s: State, t: nat)
    requires WellFormed(s) && SemsCount(s) && t < |s.pcs| && Inside(s.pcs[t]) == 1
    ensures forall u :: 0 <= u < |s.pcs| && u != t ==> Inside(s.pcs[u]) == 0
    ensures Total(s.pcs, BeforePut) == BeforePut(s.pcs[t]) && Total(s.pcs, AfterPut) == AfterPut(s.pcs[t])
    ensures Total(s.pcs, BeforeGet) == BeforeGet(s.pcs[t]) && Total(s.pcs, AfterGet) == AfterGet(s.pcs[t])
    ensures Total(s.pcs, TailBehind) == TailBehind(s.pcs[t]) && Total(s.pcs, HeadBehind) == HeadBehind(s.pcs[t])
  {
    TotalSole(s.pcs, t, Inside);
    OnlyMine(s.pcs, t, BeforePut);
    OnlyMine(s.pcs, t, AfterPut);
    OnlyMine(s.pcs, t, BeforeGet);
    OnlyMine(s.pcs, t, AfterGet);
    OnlyMine(s.pcs, t, TailBehind);
    OnlyMine(s.pcs, t, HeadBehind);
  }

  lemma OnlyMine(pcs: seq<PC>, t: nat, weight: PC -> nat)
    requires t < |pcs| && forall u :: 0 <= u < |pcs| && u != t ==> weight(pcs[u]) == 0
    requires weight(Idle) == 0
    ensures Total(pcs, weight) == weight(pcs[t])
  {
    TotalUpdate(pcs, t, Idle, weight);
    TotalZero(pcs[t := Idle], weight);
  }

  lemma SemsKept(s: State, turn: Turn)
    requires Inv(s) && turn.thread < |s.pcs| && Enabled(s, turn.thread)
    ensures SemsCount(Next(s, turn))
  {
    var t := turn.thread;
    var pc := NextPC(s, s.pcs[t], turn.request);
    CallMove(s, turn);
    TotalUpdate(s.pcs, t, pc, Inside);
    TotalUpdate(s.pcs, t, pc, BeforePut);
    TotalUpdate(s.pcs, t, pc, AfterPut);
    TotalUpdate(s.pcs, t, pc, BeforeGet);
    TotalUpdate(s.pcs, t, pc, AfterGet);
  }

  lemma NextIndex(v: int, count: int)
    requires count >= 1 && v == (count - 1) % SIZE
    ensures (v + 1) % SIZE == count % SIZE
  {}

  /** How far a step moves the tail and the store of it. */
  lemma TailMove(s: State, turn: Turn)
    requires WellFormed(s) && turn.thread < |s.pcs| && Enabled(s, turn.thread)
    ensures var pc := s.pcs[turn.thread]; var pc' := NextPC(s, pc, turn.request); var s' := Next(s, turn);
            && |s'.puts| == |s.puts| + BeforePut(pc)
            && TailBehind(pc') == (if pc.PStore? || pc.PLoadTail? then 1 else 0)
            && s'.tail == if pc.PStoreTail? then (pc.v + 1) % SIZE else s.tail
  {}

  lemma HeadMove(s: State, turn: Turn)
    requires WellFormed(s) && turn.thread < |s.pcs| && Enabled(s, turn.thread)
    ensures var pc := s.pcs[turn.thread]; var pc' := NextPC(s, pc, turn.request); var s' := Next(s, turn);
            && |s'.gots| == |s.gots| + BeforeGet(pc)
            && HeadBehind(pc') == (if pc.CLoad? || pc.CLoadHead? then 1 else 0)
            && s'.head == if pc.CStoreHead? then (pc.v + 1) % SIZE else s.head
  {}

  lemma TailKept(s: State, turn: Turn)
    requires WellFormed(s) && SemsCount(s) && Indices(s) && turn.thread < |s.pcs| && Enabled(s, turn.thread)
    ensures var s' := Next(s, turn);
            && |s'.puts| >= Total(s'.pcs, TailBehind)
            && s'.tail == (|s'.puts| - Total(s'.pcs, TailBehind)) % SIZE
  {
    var t := turn.thread;
    assert Local(s, s.pcs[t]);
    TailMove(s, turn);
    TotalUpdate(s.pcs, t, NextPC(s, s.pcs[t], turn.request), TailBehind);
    if s.pcs[t].PStore? || s.pcs[t].PStoreTail? {
      Alone(s, t);
    }
    if s.pcs[t].PStoreTail? {
      NextIndex(s.tail, |s.puts|);
    }
  }

  lemma HeadKept(s: State, turn: Turn)
    requires WellFormed(s) && SemsCount(s) && Indices(s) && turn.thread < |s.pcs| && Enabled(s, turn.thread)
    ensures var s' := Next(s, turn);
            && |s'.gots| >= Total(s'.pcs, HeadBehind)
            && s'.head == (|s'.gots| - Total(s'.pcs, HeadBehind)) % SIZE
  {
    var t := turn.thread;
    assert Local(s, s.pcs[t]);
    HeadMove(s, turn);
    TotalUpdate(s.pcs, t, NextPC(s, s.pcs[t], turn.request), HeadBehind);
    if s.pcs[t].CLoad? || s.pcs[t].CStoreHead? {
      Alone(s, t);
    }
    if s.pcs[t].CStoreHead? {
      NextIndex(s.head, |s.gots|);
    }
  }

  lemma LocalKept(s: State, turn: Turn, u: nat)
    requires Inv(s) && turn.thread < |s.pcs| && Enabled(s, turn.thread) && u < |s.pcs|
    ensures Local(Next(s, turn), Next(s, turn).pcs[u])
  {
    var t := turn.thread;
    assert Local(s, s.pcs[u]);
    if u != t && (s.pcs[t].PStoreTail? || s.pcs[t].CStoreHead?) {
      Alone(s, t);
    }
  }

  lemma IndicesKept(s: State, turn: Turn)
    requires Inv(s) && turn.thread < |s.pcs| && Enabled(s, turn.thread)
    ensures Indices(Next(s, turn))
  {
    TailKept(s, turn);
    HeadKept(s, turn);
    forall u | 0 <= u < |s.pcs|
      ensures Local(Next(s, turn), Next(s, turn).pcs[u])
    {
      LocalKept(s, turn, u);
    }
  }

  lemma CellsApart(k: nat, n: nat)
    requires k < n < k + SIZE
    ensures k % SIZE != n % SIZE
  {}

  /** The store goes to a free cell. */
  lemma PutKept(s: State, turn: Turn)
    requires Inv(s) && turn.thread < |s.pcs| && s.pcs[turn.thread].PStore? && Enabled(s, turn.thread)
    ensures Contents(Next(s, turn))
  {
    Alone(s, turn.thread);
    var s' := Next(s, turn);
    assert |s.puts| - |s.gots| < SIZE && s.tail == |s.puts| % SIZE;
    forall k | |s.gots| <= k < |s'.puts|
      ensures s'.ring[k % SIZE] == s'.puts[k]
    {
      if k < |s.puts| {
        CellsApart(k, |s.puts|);
      }
    }
  }

  /** The load finds the oldest letter in flight. */
  lemma GetKept(s: State, turn: Turn)
    requires Inv(s) && turn.thread < |s.pcs| && s.pcs[turn.thread].CLoad? && Enabled(s, turn.thread)
    ensures Contents(Next(s, turn))
  {
    Alone(s, turn.thread);
    assert |s.gots| < |s.puts| && s.head == |s.gots| % SIZE;
    assert s.ring[s.head] == s.puts[|s.gots|];
  }

  lemma ContentsKept(s: State, turn: Turn)
    requires Inv(s) && turn.thread < |s.pcs| && Enabled(s, turn.thread)
    ensures Contents(Next(s, turn))
  {
    if s.pcs[turn.thread].PStore? {
      PutKept(s, turn);
    } else if s.pcs[turn.thread].CLoad? {
      GetKept(s, turn);
    }
  }

  lemma StepKeepsInv(s: State, turn: Turn)
    requires Inv(s) && turn.thread < |s.pcs| && Enabled(s, turn.thread)
    ensures Inv(Next(s, turn))
  {
    SemsKept(s, turn);
    IndicesKept(s, turn);
    ContentsKept(s, turn);
  }

  lemma {:induction false} ExecKeepsInv(s: State, turns: seq<Turn>)
    requires Inv(s) && forall k :: 0 <= k < |turns| ==> turns[k].thread < |s.pcs|
    ensures Inv(Exec(s, turns))
    decreases |turns|
  {
    if turns != [] {
      if Enabled(s, turns[0].thread) {
        StepKeepsInv(s, turns[0]);
        ExecKeepsInv(Next(s, turns[0]), turns[1..]);
      } else {
        ExecKeepsInv(s, turns[1..]);
      }
    }
  }

  // ---- What the invariant gives for every run ----

  /** In every interleaving of any number of clients the letters got are a
      prefix of the letters put, at most 26 are in flight, each still in its
      cell, and between two sections tail and head are the counts modulo 26. */
  lemma DeliveredInOrder(s: State, turns: seq<Turn>)
    requires Initial(s) && forall k :: 0 <= k < |turns| ==> turns[k].thread < |s.pcs|
    ensures var r := Exec(s, turns);
            && r.gots <= r.puts && |r.puts| - |r.gots| <= |r.ring| == 26
            && (forall k :: |r.gots| <= k < |r.puts| ==> r.ring[k % 26] == r.puts[k])
            && (Total(r.pcs, Inside) == 0 ==> r.tail == |r.puts| % SIZE && r.head == |r.gots| % SIZE)
  {
    InitialInv(s);
    ExecKeepsInv(s, turns);
    BetweenSections(Exec(s, turns));
  }

  lemma BetweenSections(r: State)
    requires Indices(r)
    ensures Total(r.pcs, Inside) == 0 ==> r.tail == |r.puts| % SIZE && r.head == |r.gots| % SIZE
  {
    TotalMonotone(r.pcs, TailBehind, Inside);
    TotalMonotone(r.pcs, HeadBehind, Inside);
  }

  /** EMPTY + FULL + (threads inside) = 26 and MUTEX + (threads inside) = 1 in
      every reachable state, so at most one thread is inside. */
  lemma SemaphoreBalance(s: State, turns: seq<Turn>)
    requires Initial(s) && forall k :: 0 <= k < |turns| ==> turns[k].thread < |s.pcs|
    ensures var r := Exec(s, turns);
            && r.sems[EMPTY] + r.sems[FULL] + Total(r.pcs, Inside) == SIZE
            && r.sems[MUTEX] + Total(r.pcs, Inside) == 1
            && (forall t, u :: 0 <= t < u < |r.pcs| ==> Inside(r.pcs[t]) == 0 || Inside(r.pcs[u]) == 0)
  {
    InitialInv(s);
    ExecKeepsInv(s, turns);
    var r := Exec(s, turns);
    InsideSplits(r.pcs);
    forall t, u | 0 <= t < u < |r.pcs|
      ensures Inside(r.pcs[t]) == 0 || Inside(r.pcs[u]) == 0
    {
      TotalCovers(r.pcs, t, u, Inside);
    }
  }

  lemma {:induction false} InsideSplits(pcs: seq<PC>)
    ensures Total(pcs, Inside)
            == Total(pcs, BeforePut) + Total(pcs, AfterPut) + Total(pcs, BeforeGet) + Total(pcs, AfterGet)
  {
    if pcs != [] {
      InsideSplits(pcs[1..]);
    }
  }

  /** A thread inside can always go on. When nobody is inside, a put can start
      exactly while fewer than 26 letters are in flight and a get exactly while
      some letter is: one of the two is always possible. */
  lemma NeverStuck(s: State, turns: seq<Turn>)
    requires Initial(s) && forall k :: 0 <= k < |turns| ==> turns[k].thread < |s.pcs|
    ensures var r := Exec(s, turns);
            && (forall t :: 0 <= t < |r.pcs| && Inside(r.pcs[t]) == 1 ==> Enabled(r, t))
            && (Total(r.pcs, Inside) == 0 ==>
                && (Semop(r.sems, START_PRODUCE).Done? <==> |r.puts| - |r.gots| < SIZE)
                && (Semop(r.sems, START_CONSUME).Done? <==> |r.puts| - |r.gots| > 0))
  {
    InitialInv(s);
    ExecKeepsInv(s, turns);
    var r := Exec(s, turns);
    StartsPossible(r);
    forall t | 0 <= t < |r.pcs| && Inside(r.pcs[t]) == 1
      ensures Enabled(r, t)
    {
      InsideGoesOn(r, t);
    }
  }

  lemma InsideGoesOn(r: State, t: nat)
    requires WellFormed(r) && t < |r.pcs| && Inside(r.pcs[t]) == 1
    ensures Enabled(r, t)
  {
    StopProduce(r.sems, STOP_PRODUCE);
    StopConsume(r.sems, STOP_CONSUME);
  }

  lemma StartsPossible(r: State)
    requires WellFormed(r) && SemsCount(r)
    ensures Total(r.pcs, Inside) == 0 ==>
              && (Semop(r.sems, START_PRODUCE).Done? <==> |r.puts| - |r.gots| < SIZE)
              && (Semop(r.sems, START_CONSUME).Done? <==> |r.puts| - |r.gots| > 0)
  {
    InsideSplits(r.pcs);
    StartProduce(r.sems, START_PRODUCE);
    StartConsume(r.sems, START_CONSUME);
  }

  // ---- The program ----

  /** The server process with its semaphore set and client threads. */
  class Server {
    var sems: seq<int>
    const ring: array<char>
    var head: int
    var tail: int
    var pcs: seq<PC>
    ghost var puts: seq<char>
    ghost var gots: seq<char>

    ghost function View(): State
      reads this, ring
    {
      State(sems, ring[..], head, tail, pcs, puts, gots)
    }

    ghost predicate Valid()
      reads this, ring
    {
      Inv(View())
    }

    constructor (clients: nat)
      ensures Initial(View()) && Valid() && |pcs| == clients && fresh(ring)
    {
      sems, head, tail := [SIZE, 0, 1], 0, 0;
      ring := new char[SIZE](_ => '\0');
      pcs, puts, gots := seq(clients, _ => Idle), [], [];
      new;
      InitialInv(View());
    }

    /** One step of process_client in thread turn.thread: recv when it is idle,
        otherwise the next statement of the request being served. */
    method ProcessClient(turn: Turn)
      requires WellFormed(View()) && turn.thread < |pcs| && Enabled(View(), turn.thread)
      modifies this, ring
      ensures View() == Next(old(View()), turn)
    {
      var pc := pcs[turn.thread];
      var next := Idle;
      match pc {
        case Idle =>
          match turn.request {
            case Put(c) => next := PStart(c);
            case Get => next := CStart;
            case Unknown =>
          }
        case PStart(c) => Call(pc); next := PStore(c);
        case PStore(c) => ring[tail], puts := c, puts + [c]; next := PLoadTail;
        case PLoadTail => next := PStoreTail(tail);
        case PStoreTail(v) => tail := (v + 1) % SIZE; next := PStop;
        case PStop => Call(pc);
        case CStart => Call(pc); next := CLoad;
        case CLoad => gots := gots + [ring[head]]; next := CLoadHead;
        case CLoadHead => next := CStoreHead(head);
        case CStoreHead(v) => head := (v + 1) % SIZE; next := CStop;
        case CStop => Call(pc);
      }
      pcs := pcs[turn.thread := next];
    }

    /** The semop call at position pc. */
    method Call(pc: PC)
      requires |sems| == 3 && Semop(sems, CallAt(pc)).Done?
      modifies `sems
      ensures sems == Semop(old(sems), CallAt(pc)).sems
    {
      sems := Semop(sems, CallAt(pc)).sems;
    }

    /** A turn: one step, or none while the thread has to wait. */
    method Take(turn: Turn)
      requires Valid() && turn.thread < |pcs|
      modifies this, ring
      ensures Valid() && |pcs| == old(|pcs|)
      ensures View() == if old(Enabled(View(), turn.thread)) then Next(old(View()), turn) else old(View())
    {
      if Semop(sems, CallAt(pcs[turn.thread])).Done? {
        StepKeepsInv(View(), turn);
        ProcessClient(turn);
      }
    }

    method Run(turns: seq<Turn>)
      requires Valid() && forall k :: 0 <= k < |turns| ==> turns[k].thread < |pcs|
      modifies this, ring
      ensures Valid() && |pcs| == old(|pcs|)
      ensures View() == Exec(old(View()), turns)
    {
      for k := 0 to |turns|
        invariant Valid() && |pcs| == old(|pcs|)
        invariant Exec(View(), turns[k..]) == Exec(old(View()), turns)
      {
        assert turns[k..][1..] == turns[k + 1..];
        Take(turns[k]);
      }
    }
  }
}
