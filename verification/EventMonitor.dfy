/** The reader/writer monitor built from two auto-reset events
    (sem_05/lab_03/reader-writer_win/main.c). Every access to a shared variable
    and every system call of start_read, stop_read, start_write, stop_write and
    of the two thread loops is one atomic step of one thread. */
module EventMonitor {
  import opened Alphabet
  import opened Tally

  const LIMIT := 3
  const LAST_WRITE := 79   // the third 'z' is write 78; the 'a' after it is never printed

  /** Where a reader stands: the step it performs next. A store remembers the
      value its load has read. */
  datatype ReaderPC =
    | RLoop                                             // while (cnt < 3)
    | REnqueue | RAskWriters | RTryWrite | RWaitRead    // start_read, up to an event
    | RLock | RLoadInc | RStoreInc(a: int) | RDequeue | RUnlock
    | RPrint
    | RLoadDec | RStoreDec(a: int) | RAskZero | RSignal // stop_read
    | RDone

  datatype WriterPC =
    | WLoop
    | WEnqueue | WAskReaders | WTryRead | WWaitWrite    // start_write, up to an event
    | WDequeue
    | WAskLetter | WLoadCnt | WStoreCnt(c: int) | WWrapSymbol
    | WLoadSymbol | WStoreSymbol(v: int) | WAskCnt | WPrint
    | WReset | WAskQueue | WSignalRead | WSignalWrite   // stop_write
    | WLeave      // the loop test of a writer that skipped stop_write
    | WKept       // such a writer has returned
    | WDone

  datatype PC = R(r: ReaderPC) | W(w: WriterPC)

  /** The shared variables and, as history, the number of completed assignments
      to symbol. */
  datatype Shared = Shared(
    readQueue: int, writeQueue: int, activeReaders: int,
    canRead: bool, canWrite: bool, locked: bool,
    symbol: int, cnt: int, writes: nat)

  datatype State = State(sh: Shared, pcs: seq<PC>)

  predicate QueuedReader(pc: PC) {
    pc.R? && (pc.r.RAskWriters? || pc.r.RTryWrite? || pc.r.RWaitRead?)
  }

  /** A thread between consuming an event and setting the next one. */
  predicate Inside(pc: PC) {
    match pc
    case R(r) => !(r.RLoop? || r.REnqueue? || r.RAskWriters? || r.RTryWrite? || r.RWaitRead? || r.RDone?)
    case W(w) => !(w.WLoop? || w.WEnqueue? || w.WAskReaders? || w.WTryRead? || w.WWaitWrite? || w.WDone?)
  }

  function Holds(pc: PC): nat { Bit(Inside(pc)) }

  function InReadQueue(pc: PC): nat {
    Bit(QueuedReader(pc)
        || (pc.R? && (pc.r.RLock? || pc.r.RLoadInc? || pc.r.RStoreInc? || pc.r.RDequeue?)))
  }

  function InWriteQueue(pc: PC): nat {
    Bit(pc.W? && (pc.w.WAskReaders? || pc.w.WTryRead? || pc.w.WWaitWrite? || pc.w.WDequeue?))
  }

  function Active(pc: PC): nat {
    Bit(pc.R? && (pc.r.RDequeue? || pc.r.RUnlock? || pc.r.RPrint? || pc.r.RLoadDec? || pc.r.RStoreDec?))
  }

  function Locks(pc: PC): nat {
    Bit(pc.R? && (pc.r.RLoadInc? || pc.r.RStoreInc? || pc.r.RDequeue? || pc.r.RUnlock?))
  }

  function Wrapping(pc: PC): nat { Bit(pc == W(WWrapSymbol)) }

  function Final(pc: PC): nat {
    Bit(pc.W? && (pc.w.WWrapSymbol? || pc.w.WAskCnt? || pc.w.WLeave? || pc.w.WKept?))
  }

  /** A wait without a time limit needs its object signalled; a thread that has
      returned has no step. Everything else can always be done. */
  predicate CanMove(sh: Shared, pc: PC) {
    match pc
    case R(RWaitRead) => sh.canRead
    case R(RLock) => !sh.locked
    case R(RDone) => false
    case W(WWaitWrite) => sh.canWrite
    case W(WDone) => false
    case W(WKept) => false
    case _ => true
  }

  function ReaderMove(sh: Shared, r: ReaderPC): (Shared, ReaderPC) {
    match r
    case RLoop => (sh, if sh.cnt < LIMIT then REnqueue else RDone)
    case REnqueue => (sh.(readQueue := sh.readQueue + 1), RAskWriters)
    case RAskWriters => (sh, if sh.writeQueue > 0 then RWaitRead else RTryWrite)
    case RTryWrite => if sh.canWrite then (sh.(canWrite := false), RLock) else (sh, RWaitRead)
    case RWaitRead => (sh.(canRead := false), RLock)
    case RLock => (sh.(locked := true), RLoadInc)
    case RLoadInc => (sh, RStoreInc(sh.activeReaders))
    case RStoreInc(a) => (sh.(activeReaders := a + 1), RDequeue)
    case RDequeue => (sh.(readQueue := sh.readQueue - 1), RUnlock)
    case RUnlock => (sh.(locked := false), RPrint)
    case RPrint => (sh, RLoadDec)
    case RLoadDec => (sh, RStoreDec(sh.activeReaders))
    case RStoreDec(a) => (sh.(activeReaders := a - 1), RAskZero)
    case RAskZero => (sh, if sh.activeReaders == 0 then RSignal else RLoop)
    case RSignal => (sh.(canWrite := true), RLoop)
    case RDone => (sh, RDone)
  }

  function WriterMove(sh: Shared, w: WriterPC): (Shared, WriterPC) {
    match w
    case WLoop => (sh, if sh.cnt < LIMIT then WEnqueue else WDone)
    case WEnqueue => (sh.(writeQueue := sh.writeQueue + 1), WAskReaders)
    case WAskReaders => (sh, if sh.activeReaders > 0 then WWaitWrite else WTryRead)
    case WTryRead => if sh.canRead then (sh.(canRead := false), WDequeue) else (sh, WWaitWrite)
    case WWaitWrite => (sh.(canWrite := false), WDequeue)
    case WDequeue => (sh.(writeQueue := sh.writeQueue - 1), WAskLetter)
    case WAskLetter => (sh, if sh.symbol == LOWER_Z then WLoadCnt else WLoadSymbol)
    case WLoadCnt => (sh, WStoreCnt(sh.cnt))
    case WStoreCnt(c) => (sh.(cnt := c + 1), WWrapSymbol)
    case WWrapSymbol => (sh.(symbol := LOWER_A, writes := sh.writes + 1), WAskCnt)
    case WLoadSymbol => (sh, WStoreSymbol(sh.symbol))
    case WStoreSymbol(v) => (sh.(symbol := v + 1, writes := sh.writes + 1), WAskCnt)
    case WAskCnt => (sh, if sh.cnt < LIMIT then WPrint else WLeave)
    case WPrint => (sh, WReset)
    case WReset => (sh.(canWrite := false), WAskQueue)
    case WAskQueue => (sh, if sh.readQueue > 0 then WSignalRead else WSignalWrite)
    case WSignalRead => (sh.(canRead := true), WLoop)
    case WSignalWrite => (sh.(canWrite := true), WLoop)
    case WLeave => (sh, if sh.cnt < LIMIT then WEnqueue else WKept)
    case WKept => (sh, WKept)
    case WDone => (sh, WDone)
  }

  function Move(sh: Shared, pc: PC): (Shared, PC) {
    match pc
    case R(r) => var (sh', r') := ReaderMove(sh, r); (sh', R(r'))
    case W(w) => var (sh', w') := WriterMove(sh, w); (sh', W(w'))
  }

  predicate Enabled(s: State, t: nat)
    requires t < |s.pcs|
  {
    CanMove(s.sh, s.pcs[t])
  }

  /** The state after the next step of thread t. */
  function Next(s: State, t: nat): State
    requires t < |s.pcs|
  {
    var (sh', pc') := Move(s.sh, s.pcs[t]);
    State(sh', s.pcs[t := pc'])
  }

  /** main(): can_write starts signalled, everything else is clear, and the
      threads are any mix of readers and writers. */
  predicate Initial(s: State) {
    && s.sh == Shared(0, 0, 0, false, true, false, LOWER_A - 1, 0, 0)
    && forall t :: 0 <= t < |s.pcs| ==> s.pcs[t] == R(RLoop) || s.pcs[t] == W(WLoop)
  }

  /** The state after a schedule; a thread that is scheduled while it cannot
      move stays where it is. */
  function Exec(s: State, schedule: seq<nat>): (r: State)
    requires forall k :: 0 <= k < |schedule| ==> schedule[k] < |s.pcs|
    ensures |r.pcs| == |s.pcs|
    decreases |schedule|
  {
    if schedule == [] then s
    else Exec(if Enabled(s, schedule[0]) then Next(s, schedule[0]) else s, schedule[1..])
  }

  // ---- The global invariant ----

  /** One token: it is in can_read, in can_write or with the one thread inside. */
  predicate OneToken(s: State) {
    Bit(s.sh.canRead) + Bit(s.sh.canWrite) + Total(s.pcs, Holds) == 1
  }

  predicate Counters(s: State) {
    && s.sh.readQueue == Total(s.pcs, InReadQueue)
    && s.sh.writeQueue == Total(s.pcs, InWriteQueue)
    && s.sh.activeReaders == Total(s.pcs, Active)
    && Bit(s.sh.locked) == Total(s.pcs, Locks)
  }

  function Wraps(writes: nat): nat {
    if writes == 0 then 0 else (writes - 1) / 26
  }

  /** symbol is the letter of the last completed write and cnt counts the
      wraps from 'z' to 'a', one ahead while such a wrap is in progress. */
  predicate Data(s: State) {
    && s.sh.symbol == Letter(s.sh.writes)
    && s.sh.cnt == Wraps(s.sh.writes) + Total(s.pcs, Wrapping)
    && (Total(s.pcs, Wrapping) > 0 ==> s.sh.symbol == LOWER_Z)
    && s.sh.cnt <= LIMIT
    && (s.sh.cnt == LIMIT ==> Total(s.pcs, Final) == 1 && s.sh.writes <= LAST_WRITE)
  }

  predicate HasQueuedReader(pcs: seq<PC>) {
    exists t :: 0 <= t < |pcs| && QueuedReader(pcs[t])
  }

  /** What a thread may rely on at its position. */
  predicate Local(sh: Shared, pc: PC) {
    match pc
    case R(RStoreInc(a)) => a == sh.activeReaders
    case R(RStoreDec(a)) => a == sh.activeReaders
    case W(WLoadCnt) => sh.symbol == LOWER_Z
    case W(WStoreCnt(c)) => c == sh.cnt && sh.symbol == LOWER_Z
    case W(WLoadSymbol) => sh.symbol != LOWER_Z
    case W(WStoreSymbol(v)) => v == sh.symbol && sh.symbol != LOWER_Z
    case R(RDone) => sh.cnt >= LIMIT
    case W(WDone) => sh.cnt >= LIMIT
    case W(WLeave) => sh.cnt >= LIMIT
    case W(WKept) => sh.cnt >= LIMIT
    case _ => true
  }

  predicate Locals(s: State) {
    forall t :: 0 <= t < |s.pcs| ==> Local(s.sh, s.pcs[t])
  }

  /** can_read is signalled, or about to be, only while a reader still queues;
      and without writers some reader is not waiting for can_read. */
  predicate Supply(s: State) {
    && (s.sh.canRead ==> HasQueuedReader(s.pcs))
    && (forall t :: 0 <= t < |s.pcs| && s.pcs[t] == W(WSignalRead) ==> HasQueuedReader(s.pcs))
    && (s.sh.canWrite && |s.pcs| > 0 && (forall t :: 0 <= t < |s.pcs| ==> s.pcs[t].R?)
        ==> exists t :: 0 <= t < |s.pcs| && s.pcs[t] != R(RWaitRead))
  }

  predicate Inv(s: State) {
    OneToken(s) && Counters(s) && Data(s) && Locals(s) && Supply(s)
  }

  lemma InitialInv(s: State)
    requires Initial(s)
    ensures Inv(s)
  {
    TotalZero(s.pcs, Holds);
    TotalZero(s.pcs, InReadQueue);
    TotalZero(s.pcs, InWriteQueue);
    TotalZero(s.pcs, Active);
    TotalZero(s.pcs, Locks);
    TotalZero(s.pcs, Wrapping);
    if |s.pcs| > 0 {
      assert s.pcs[0] != R(RWaitRead);
    }
  }

  /** What holding the token means for everyone else. */
  lemma Alone(s: State, t: nat)
    requires OneToken(s) && t < |s.pcs| && Inside(s.pcs[t])
    ensures !s.sh.canRead && !s.sh.canWrite
    ensures forall u :: 0 <= u < |s.pcs| && u != t ==> !Inside(s.pcs[u])
  {
    TotalSole(s.pcs, t, Holds);
    assert forall u :: 0 <= u < |s.pcs| && u != t ==> Holds(s.pcs[u]) == 0;
  }

  /** A weight that only threads inside carry is carried by the holder alone. */
  lemma OnlyMine(s: State, t: nat, weight: PC -> nat)
    requires OneToken(s) && t < |s.pcs| && Inside(s.pcs[t])
    requires forall pc :: !Inside(pc) ==> weight(pc) == 0
    ensures Total(s.pcs, weight) == weight(s.pcs[t])
  {
    Alone(s, t);
    TotalUpdate(s.pcs, t, R(RLoop), weight);
    assert !Inside(R(RLoop));
    TotalZero(s.pcs[t := R(RLoop)], weight);
  }

  lemma TokenMove(sh: Shared, pc: PC)
    requires CanMove(sh, pc)
    requires Inside(pc) ==> !sh.canRead && !sh.canWrite && sh.activeReaders == Active(pc)
    requires Local(sh, pc)
    ensures var (sh', pc') := Move(sh, pc);
            Bit(sh'.canRead) + Bit(sh'.canWrite) + Holds(pc')
            == Bit(sh.canRead) + Bit(sh.canWrite) + Holds(pc)
  {}

  lemma QueuesMove(sh: Shared, pc: PC)
    requires CanMove(sh, pc)
    ensures var (sh', pc') := Move(sh, pc);
            && sh'.readQueue - sh.readQueue == InReadQueue(pc') - InReadQueue(pc)
            && sh'.writeQueue - sh.writeQueue == InWriteQueue(pc') - InWriteQueue(pc)
  {}

  lemma ActiveMove(sh: Shared, pc: PC)
    requires CanMove(sh, pc) && Local(sh, pc)
    requires Inside(pc) ==> Bit(sh.locked) == Locks(pc)
    ensures var (sh', pc') := Move(sh, pc);
            && sh'.activeReaders - sh.activeReaders == Active(pc') - Active(pc)
            && Bit(sh'.locked) - Bit(sh.locked) == Locks(pc') - Locks(pc)
  {}

  lemma TokenKept(s: State, t: nat)
    requires t < |s.pcs| && Enabled(s, t) && OneToken(s) && Counters(s) && Locals(s)
    ensures OneToken(Next(s, t))
  {
    TotalUpdate(s.pcs, t, Next(s, t).pcs[t], Holds);
    if Inside(s.pcs[t]) {
      Alone(s, t);
      OnlyMine(s, t, Active);
    }
    TokenMove(s.sh, s.pcs[t]);
  }

  lemma CountersKept(s: State, t: nat)
    requires t < |s.pcs| && Enabled(s, t) && OneToken(s) && Counters(s) && Locals(s)
    ensures Counters(Next(s, t))
  {
    var pc := Next(s, t).pcs[t];
    TotalUpdate(s.pcs, t, pc, InReadQueue);
    TotalUpdate(s.pcs, t, pc, InWriteQueue);
    TotalUpdate(s.pcs, t, pc, Active);
    TotalUpdate(s.pcs, t, pc, Locks);
    if Inside(s.pcs[t]) {
      OnlyMine(s, t, Locks);
    }
    QueuesMove(s.sh, s.pcs[t]);
    ActiveMove(s.sh, s.pcs[t]);
  }

  lemma NextLetter(writes: nat)
    ensures Letter(writes) == LOWER_Z ==>
              Letter(writes + 1) == LOWER_A && Wraps(writes + 1) == Wraps(writes) + 1
    ensures Letter(writes) != LOWER_Z ==>
              Letter(writes + 1) == Letter(writes) + 1 && Wraps(writes + 1) == Wraps(writes)
  {}

  lemma ReaderLeavesData(sh: Shared, r: ReaderPC)
    ensures var (sh', pc') := Move(sh, R(r));
            sh'.symbol == sh.symbol && sh'.cnt == sh.cnt && sh'.writes == sh.writes && pc'.R?
  {}

  /** A step changes symbol and cnt as the count of writes says. */
  lemma DataMove(sh: Shared, pc: PC)
    requires CanMove(sh, pc) && Local(sh, pc)
    requires sh.symbol == Letter(sh.writes) && (pc == W(WWrapSymbol) ==> sh.symbol == LOWER_Z)
    ensures var (sh', pc') := Move(sh, pc);
            && sh'.symbol == Letter(sh'.writes) && (pc' == W(WWrapSymbol) ==> sh'.symbol == LOWER_Z)
            && sh'.cnt - sh.cnt == Wraps(sh'.writes) - Wraps(sh.writes) + Wrapping(pc') - Wrapping(pc)
  {
    if pc.R? {
      ReaderLeavesData(sh, pc.r);
    } else {
      NextLetter(sh.writes);
    }
  }

  lemma FinalMove(sh: Shared, pc: PC)
    requires CanMove(sh, pc) && Local(sh, pc)
    requires sh.cnt <= LIMIT && (Inside(pc) && sh.cnt == LIMIT ==> Final(pc) == 1 && sh.writes <= LAST_WRITE)
    requires Inside(pc) ==> sh.symbol == Letter(sh.writes) && sh.cnt == Wraps(sh.writes) + Wrapping(pc)
    requires pc == W(WWrapSymbol) ==> sh.symbol == LOWER_Z
    ensures var (sh', pc') := Move(sh, pc);
            && sh.cnt <= sh'.cnt <= LIMIT
            && (Inside(pc) && sh'.cnt == LIMIT ==> sh'.writes <= LAST_WRITE)
            && (sh'.cnt == LIMIT && Inside(pc) ==> Final(pc') == 1)
            && (!Inside(pc) ==> Final(pc') == 0 && sh'.cnt == sh.cnt && sh'.writes == sh.writes)
  {}

  lemma DataKept(s: State, t: nat)
    requires t < |s.pcs| && Enabled(s, t) && OneToken(s) && Locals(s) && Data(s)
    ensures Data(Next(s, t))
    ensures s.sh.cnt <= Next(s, t).sh.cnt
  {
    var s' := Next(s, t);
    TotalUpdate(s.pcs, t, s'.pcs[t], Wrapping);
    TotalUpdate(s.pcs, t, s'.pcs[t], Final);
    if Inside(s.pcs[t]) {
      OnlyMine(s, t, Wrapping);
      OnlyMine(s, t, Final);
    }
    DataMove(s.sh, s.pcs[t]);
    FinalMove(s.sh, s.pcs[t]);
  }

  lemma LocalMove(sh: Shared, pc: PC, other: PC)
    requires CanMove(sh, pc)
    ensures var (sh', pc') := Move(sh, pc);
            && (Local(sh, pc) && Inside(pc) ==> Local(sh', pc'))
            && (!Inside(pc) ==> Local(sh', pc') && (Local(sh, other) ==> Local(sh', other)))
            && (!Inside(other) && Local(sh, other) && sh.cnt <= sh'.cnt ==> Local(sh', other))
  {}

  lemma LocalsKept(s: State, t: nat)
    requires t < |s.pcs| && Enabled(s, t) && Inv(s)
    ensures Locals(Next(s, t))
  {
    var s' := Next(s, t);
    DataKept(s, t);
    forall u | 0 <= u < |s'.pcs|
      ensures Local(s'.sh, s'.pcs[u])
    {
      LocalMove(s.sh, s.pcs[t], s.pcs[u]);
      if u != t && Inside(s.pcs[t]) {
        Alone(s, t);
      }
    }
  }

  /** A writer inside that sees read_queue > 0 sees a reader that still queues. */
  lemma QueueHasReader(s: State, t: nat)
    requires t < |s.pcs| && OneToken(s) && Counters(s)
    requires s.pcs[t] == W(WAskQueue) && s.sh.readQueue > 0
    ensures HasQueuedReader(s.pcs)
  {
    Alone(s, t);
    var u := TotalWitness(s.pcs, InReadQueue);
    assert QueuedReader(s.pcs[u]);
  }

  lemma QueueMove(sh: Shared, pc: PC)
    ensures var (sh', pc') := Move(sh, pc);
            && (sh'.canRead ==> sh.canRead || pc == W(WSignalRead))
            && (pc' == W(WSignalRead) ==> pc == W(WAskQueue) && sh.readQueue > 0)
            && (QueuedReader(pc) ==> QueuedReader(pc') || Inside(pc'))
            && (sh'.canWrite && !sh.canWrite ==> pc' != R(RWaitRead))
            && (pc' == R(RWaitRead) && CanMove(sh, pc) ==> sh.writeQueue > 0 || !sh'.canWrite)
            && pc'.R? == pc.R?
  {}

  /** As long as nobody enters, a queued reader stays queued. */
  lemma QueuedReaderStays(s: State, t: nat)
    requires t < |s.pcs| && HasQueuedReader(s.pcs) && !Inside(Next(s, t).pcs[t])
    ensures HasQueuedReader(Next(s, t).pcs)
  {
    var u :| 0 <= u < |s.pcs| && QueuedReader(s.pcs[u]);
    QueueMove(s.sh, s.pcs[t]);
    assert QueuedReader(Next(s, t).pcs[u]);
  }

  lemma SupplyForRead(s: State, t: nat)
    requires t < |s.pcs| && Enabled(s, t) && Inv(s)
    ensures Next(s, t).sh.canRead ==> HasQueuedReader(Next(s, t).pcs)
  {
    var s' := Next(s, t);
    TokenKept(s, t);
    QueueMove(s.sh, s.pcs[t]);
    if s'.sh.canRead {
      if Inside(s'.pcs[t]) {
        Alone(s', t);
      }
      QueuedReaderStays(s, t);
    }
  }

  lemma SupplyForSignal(s: State, t: nat, v: nat)
    requires t < |s.pcs| && Enabled(s, t) && Inv(s)
    requires v < |s.pcs| && Next(s, t).pcs[v] == W(WSignalRead)
    ensures HasQueuedReader(Next(s, t).pcs)
  {
    var s' := Next(s, t);
    TokenKept(s, t);
    QueueMove(s.sh, s.pcs[t]);
    Alone(s', v);
    if v == t {
      QueueHasReader(s, t);
      var u :| 0 <= u < |s.pcs| && QueuedReader(s.pcs[u]);
      assert QueuedReader(s'.pcs[u]);
    } else {
      QueuedReaderStays(s, t);
    }
  }

  lemma SupplyWithoutWriters(s: State, t: nat)
    requires t < |s.pcs| && Enabled(s, t) && Inv(s)
    requires Next(s, t).sh.canWrite && forall u :: 0 <= u < |s.pcs| ==> Next(s, t).pcs[u].R?
    ensures exists u :: 0 <= u < |s.pcs| && Next(s, t).pcs[u] != R(RWaitRead)
  {
    var s' := Next(s, t);
    QueueMove(s.sh, s.pcs[t]);
    forall u | 0 <= u < |s.pcs|
      ensures s.pcs[u].R?
    {
      assert s'.pcs[u].R?;
    }
    TotalZero(s.pcs, InWriteQueue);
    assert s'.pcs[t] != R(RWaitRead);
  }

  lemma SupplyKept(s: State, t: nat)
    requires t < |s.pcs| && Enabled(s, t) && Inv(s)
    ensures Supply(Next(s, t))
  {
    var s' := Next(s, t);
    SupplyForRead(s, t);
    forall v | 0 <= v < |s'.pcs| && s'.pcs[v] == W(WSignalRead)
      ensures HasQueuedReader(s'.pcs)
    {
      SupplyForSignal(s, t, v);
    }
    if s'.sh.canWrite && (forall u :: 0 <= u < |s'.pcs| ==> s'.pcs[u].R?) {
      SupplyWithoutWriters(s, t);
    }
  }

  /** Every atomic step of every thread keeps the invariant. */
  lemma StepKeepsInv(s: State, t: nat)
    requires t < |s.pcs| && Enabled(s, t) && Inv(s)
    ensures Inv(Next(s, t))
  {
    TokenKept(s, t);
    CountersKept(s, t);
    DataKept(s, t);
    LocalsKept(s, t);
    SupplyKept(s, t);
  }

  lemma {:induction false} ExecKeepsInv(s: State, schedule: seq<nat>)
    requires forall k :: 0 <= k < |schedule| ==> schedule[k] < |s.pcs|
    requires Inv(s)
    ensures Inv(Exec(s, schedule))
    decreases |schedule|
  {
    if schedule != [] {
      if Enabled(s, schedule[0]) {
        StepKeepsInv(s, schedule[0]);
        ExecKeepsInv(Next(s, schedule[0]), schedule[1..]);
      } else {
        ExecKeepsInv(s, schedule[1..]);
      }
    }
  }

  // ---- What the invariant gives for every run ----

  predicate SameData(a: Shared, b: Shared) {
    a.activeReaders == b.activeReaders && a.symbol == b.symbol && a.cnt == b.cnt && a.writes == b.writes
  }

  lemma OutsiderMove(sh: Shared, pc: PC)
    requires !Inside(pc)
    ensures SameData(sh, Move(sh, pc).0)
  {}

  /** In every run of any number of readers and writers the token is unique, so
      no two threads are ever inside together, active_readers is 0 or 1, and the
      next step to change it, symbol or cnt is one of the thread inside. */
  lemma MutualExclusion(s: State, schedule: seq<nat>)
    requires Initial(s) && forall k :: 0 <= k < |schedule| ==> schedule[k] < |s.pcs|
    ensures var r := Exec(s, schedule);
            && Bit(r.sh.canRead) + Bit(r.sh.canWrite) + Total(r.pcs, Holds) == 1
            && (forall t, u :: 0 <= t < |r.pcs| && 0 <= u < |r.pcs| && Inside(r.pcs[t]) && Inside(r.pcs[u]) ==> t == u)
            && 0 <= r.sh.activeReaders <= 1
            && forall t :: 0 <= t < |r.pcs| && !Inside(r.pcs[t]) ==> SameData(r.sh, Next(r, t).sh)
  {
    InitialInv(s);
    ExecKeepsInv(s, schedule);
    var r := Exec(s, schedule);
    TotalMonotone(r.pcs, Active, Holds);
    forall t | 0 <= t < |r.pcs| && !Inside(r.pcs[t])
      ensures SameData(r.sh, Next(r, t).sh)
    {
      OutsiderMove(r.sh, r.pcs[t]);
    }
    forall t, u | 0 <= t < |r.pcs| && 0 <= u < |r.pcs| && Inside(r.pcs[t]) && Inside(r.pcs[u])
      ensures t == u
    {
      Alone(r, t);
    }
  }

  lemma ReachableData(s: State, schedule: seq<nat>)
    requires Initial(s) && forall k :: 0 <= k < |schedule| ==> schedule[k] < |s.pcs|
    ensures Data(Exec(s, schedule))
  {
    InitialInv(s);
    ExecKeepsInv(s, schedule);
  }

  lemma WritesBounded(sh: Shared, wrapping: nat)
    requires sh.cnt == Wraps(sh.writes) + wrapping && sh.cnt <= LIMIT
    requires sh.cnt == LIMIT ==> sh.writes <= LAST_WRITE
    ensures sh.writes <= LAST_WRITE
  {}

  /** The unlocked updates lose nothing: symbol is the letter of the last
      completed write, the letters cycle from 'a' to 'z', and at most 79 are
      ever written. */
  lemma LettersInOrder(s: State, schedule: seq<nat>)
    requires Initial(s) && forall k :: 0 <= k < |schedule| ==> schedule[k] < |s.pcs|
    ensures var r := Exec(s, schedule).sh;
            && r.symbol == (if r.writes == 0 then LOWER_A - 1 else LOWER_A + (r.writes - 1) % 26)
            && r.writes <= 79
  {
    ReachableData(s, schedule);
    var r := Exec(s, schedule);
    WritesBounded(r.sh, Total(r.pcs, Wrapping));
  }

  // ---- Progress ----

  predicate Enters(s: State, t: nat)
    requires t < |s.pcs|
  {
    !Inside(s.pcs[t]) && Inside(Next(s, t).pcs[t])
  }

  /** The steps a thread still makes before it must take an event again. */
  function Rank(pc: PC): nat {
    match pc
    case R(r) => (
      match r
      case RLoop => 4 case REnqueue => 3 case RAskWriters => 2 case RTryWrite => 1
      case RWaitRead => 0 case RDone => 0
      case RLock => 14 case RLoadInc => 13 case RStoreInc(_) => 12 case RDequeue => 11
      case RUnlock => 10 case RPrint => 9 case RLoadDec => 8 case RStoreDec(_) => 7
      case RAskZero => 6 case RSignal => 5)
    case W(w) =>
      match w
      case WLoop => 4 case WEnqueue => 3 case WAskReaders => 2 case WTryRead => 1
      case WWaitWrite => 0 case WDone => 0
      case WDequeue => 15 case WAskLetter => 14 case WLoadCnt => 13 case WStoreCnt(_) => 12
      case WWrapSymbol => 11 case WLoadSymbol => 13 case WStoreSymbol(_) => 12 case WAskCnt => 10
      case WPrint => 9 case WReset => 8 case WAskQueue => 7 case WSignalRead => 6
      case WSignalWrite => 6 case WLeave => 9 case WKept => 0
  }

  /** The number of steps that a schedule really takes. */
  function Moves(s: State, schedule: seq<nat>): nat
    requires forall k :: 0 <= k < |schedule| ==> schedule[k] < |s.pcs|
    decreases |schedule|
  {
    if schedule == [] then 0
    else if Enabled(s, schedule[0]) then 1 + Moves(Next(s, schedule[0]), schedule[1..])
    else Moves(s, schedule[1..])
  }

  /** The number of times a thread gets inside during a schedule. */
  function Entries(s: State, schedule: seq<nat>): nat
    requires forall k :: 0 <= k < |schedule| ==> schedule[k] < |s.pcs|
    decreases |schedule|
  {
    if schedule == [] then 0
    else if Enabled(s, schedule[0])
    then Bit(Enters(s, schedule[0])) + Entries(Next(s, schedule[0]), schedule[1..])
    else Entries(s, schedule[1..])
  }

  lemma RankMove(sh: Shared, pc: PC)
    requires CanMove(sh, pc)
    ensures var (_, pc') := Move(sh, pc);
            Rank(pc') + 1 <= Rank(pc) + 16 * Bit(!Inside(pc) && Inside(pc'))
  {}

  lemma {:induction false} RankPaysForMoves(s: State, schedule: seq<nat>)
    requires forall k :: 0 <= k < |schedule| ==> schedule[k] < |s.pcs|
    ensures Moves(s, schedule) + Total(Exec(s, schedule).pcs, Rank)
            <= Total(s.pcs, Rank) + 16 * Entries(s, schedule)
    decreases |schedule|
  {
    if schedule != [] {
      var t := schedule[0];
      if Enabled(s, t) {
        RankMove(s.sh, s.pcs[t]);
        TotalUpdate(s.pcs, t, Next(s, t).pcs[t], Rank);
        RankPaysForMoves(Next(s, t), schedule[1..]);
      } else {
        RankPaysForMoves(s, schedule[1..]);
      }
    }
  }

  /** A run of n threads that makes more than 4 n + 16 e steps lets threads in
      more than e times, whatever the schedule. */
  lemma ThreadsKeepEntering(s: State, schedule: seq<nat>)
    requires Initial(s) && forall k :: 0 <= k < |schedule| ==> schedule[k] < |s.pcs|
    ensures Moves(s, schedule) <= 4 * |s.pcs| + 16 * Entries(s, schedule)
  {
    TotalBound(s.pcs, Rank, 4);
    RankPaysForMoves(s, schedule);
  }

  /** Someone can always move while cnt < 3: the thread inside, a queued reader
      when can_read is signalled, or a thread that can take can_write. */
  lemma InvNotStuck(s: State) returns (t: nat)
    requires Inv(s) && |s.pcs| > 0 && s.sh.cnt < LIMIT
    ensures t < |s.pcs| && Enabled(s, t)
  {
    if s.sh.canRead {
      t :| 0 <= t < |s.pcs| && QueuedReader(s.pcs[t]);
    } else if s.sh.canWrite {
      if w :| 0 <= w < |s.pcs| && s.pcs[w].W? {
        t := w;
        NobodyInside(s, t);
      } else {
        t :| 0 <= t < |s.pcs| && s.pcs[t] != R(RWaitRead);
        NobodyInside(s, t);
      }
    } else {
      t := TotalWitness(s.pcs, Holds);
      OnlyMine(s, t, Locks);
    }
    assert Local(s.sh, s.pcs[t]);
  }

  lemma NobodyInside(s: State, t: nat)
    requires OneToken(s) && t < |s.pcs| && s.sh.canWrite
    ensures !Inside(s.pcs[t])
  {
    TotalCovers(s.pcs, t, t, Holds);
  }

  /** No reachable state with cnt < 3 is a deadlock, for every non-empty mix of
      readers and writers. */
  lemma NoDeadlock(s: State, schedule: seq<nat>)
    requires Initial(s) && forall k :: 0 <= k < |schedule| ==> schedule[k] < |s.pcs|
    requires |s.pcs| > 0 && Exec(s, schedule).sh.cnt < LIMIT
    ensures exists t :: 0 <= t < |s.pcs| && Enabled(Exec(s, schedule), t)
  {
    InitialInv(s);
    ExecKeepsInv(s, schedule);
    var t := InvNotStuck(Exec(s, schedule));
  }

  /** The writer that has set cnt to 3 is the only one inside, and it is past the
      last update of the shared data. */
  lemma FinalIsAlone(s: State, t: nat) returns (u: nat)
    requires t < |s.pcs| && Inv(s) && s.sh.cnt == LIMIT
    ensures u < |s.pcs| && Final(s.pcs[u]) == 1 && Inside(s.pcs[u])
    ensures t != u ==> !Inside(s.pcs[t])
  {
    u := TotalWitness(s.pcs, Final);
    Alone(s, u);
  }

  lemma ClosedStep(s: State, t: nat)
    requires t < |s.pcs| && Enabled(s, t) && Inv(s) && s.sh.cnt == LIMIT
    ensures !Enters(s, t) && Next(s, t).sh.cnt == LIMIT
  {
    var u := FinalIsAlone(s, t);
    StepKeepsInv(s, t);
    DataKept(s, t);
    if Enters(s, t) {
      assert Inside(Next(s, t).pcs[u]) && Inside(Next(s, t).pcs[t]);
      Alone(Next(s, t), t);
      assert false;
    }
  }

  lemma ClosedData(s: State, t: nat)
    requires t < |s.pcs| && Enabled(s, t) && Inv(s) && s.sh.cnt == LIMIT && Total(s.pcs, Wrapping) == 0
    ensures SameData(s.sh, Next(s, t).sh) && Total(Next(s, t).pcs, Wrapping) == 0
  {
    var u := FinalIsAlone(s, t);
    ClosedStep(s, t);
    TotalUpdate(s.pcs, t, Next(s, t).pcs[t], Wrapping);
    TotalCovers(s.pcs, t, t, Wrapping);
    if t != u {
      OutsiderMove(s.sh, s.pcs[t]);
    }
  }

  /** The writer that sets cnt to 3 never gives the token back, so nobody enters
      after it; and once it has wrapped the letter, the shared data stay as they
      are. */
  lemma {:induction false} ClosedForever(s: State, schedule: seq<nat>)
    requires forall k :: 0 <= k < |schedule| ==> schedule[k] < |s.pcs|
    requires Inv(s) && s.sh.cnt == LIMIT
    ensures Entries(s, schedule) == 0 && Exec(s, schedule).sh.cnt == LIMIT
    ensures Total(s.pcs, Wrapping) == 0 ==> SameData(s.sh, Exec(s, schedule).sh)
    decreases |schedule|
  {
    if schedule != [] {
      var t := schedule[0];
      if Enabled(s, t) {
        ClosedStep(s, t);
        StepKeepsInv(s, t);
        if Total(s.pcs, Wrapping) == 0 {
          ClosedData(s, t);
        }
        ClosedForever(Next(s, t), schedule[1..]);
      } else {
        ClosedForever(s, schedule[1..]);
      }
    }
  }

  // ---- The program ----

  predicate AtStopRead(r: ReaderPC) {
    r.RLoadDec? || r.RStoreDec? || r.RAskZero? || r.RSignal?
  }

  predicate AtStartWrite(w: WriterPC) {
    w.WEnqueue? || w.WAskReaders? || w.WTryRead? || w.WWaitWrite? || w.WDequeue?
  }

  predicate AtStopWrite(w: WriterPC) {
    w.WReset? || w.WAskQueue? || w.WSignalRead? || w.WSignalWrite?
  }

  /** The process: its global variables, its event and mutex handles, and one
      program counter per thread. Each method is one function of the source, or
      a part of one, and performs the one atomic step at which the thread stands. */
  class Monitor {
    var readQueue: int
    var writeQueue: int
    var activeReaders: int
    var canRead: bool
    var canWrite: bool
    var bmutex: bool
    var symbol: int
    var cnt: int
    var pcs: seq<PC>
    ghost var writes: nat

    ghost function View(): State
      reads this
    {
      State(Shared(readQueue, writeQueue, activeReaders, canRead, canWrite, bmutex, symbol, cnt, writes), pcs)
    }

    ghost predicate Valid()
      reads this
    {
      Inv(View())
    }

    constructor (readers: nat, writers: nat)
      ensures Initial(View()) && Valid() && |pcs| == readers + writers
    {
      readQueue, writeQueue, activeReaders := 0, 0, 0;
      canRead, canWrite, bmutex := false, true, false;
      symbol, cnt, writes := LOWER_A - 1, 0, 0;
      pcs := seq(writers + readers, i => if i < writers then W(WLoop) else R(RLoop));
      new;
      InitialInv(View());
    }

    /** start_read up to the point where an event has been consumed. */
    method StartReadQueue(t: nat)
      requires t < |pcs| && Enabled(View(), t)
      requires pcs[t] == R(REnqueue) || QueuedReader(pcs[t])
      modifies this
      ensures View() == Next(old(View()), t)
    {
      var next: ReaderPC;
      match pcs[t].r {
        case REnqueue => readQueue := readQueue + 1; next := RAskWriters;
        case RAskWriters => next := if writeQueue > 0 then RWaitRead else RTryWrite;
        case RTryWrite =>
          if canWrite { canWrite := false; next := RLock; } else { next := RWaitRead; }
        case RWaitRead => canRead := false; next := RLock;
      }
      pcs := pcs[t := R(next)];
    }

    /** start_read from the wait for bmutex to its release. */
    method StartReadEnter(t: nat)
      requires t < |pcs| && Enabled(View(), t)
      requires pcs[t] == R(RLock) || Locks(pcs[t]) == 1
      modifies this
      ensures View() == Next(old(View()), t)
    {
      var next: ReaderPC;
      match pcs[t].r {
        case RLock => bmutex := true; next := RLoadInc;
        case RLoadInc => next := RStoreInc(activeReaders);
        case RStoreInc(a) => activeReaders := a + 1; next := RDequeue;
        case RDequeue => readQueue := readQueue - 1; next := RUnlock;
        case RUnlock => bmutex := false; next := RPrint;
      }
      pcs := pcs[t := R(next)];
    }

    method StopRead(t: nat)
      requires t < |pcs| && pcs[t].R? && AtStopRead(pcs[t].r)
      modifies this
      ensures View() == Next(old(View()), t)
    {
      var next: ReaderPC;
      match pcs[t].r {
        case RLoadDec => next := RStoreDec(activeReaders);
        case RStoreDec(a) => activeReaders := a - 1; next := RAskZero;
        case RAskZero => next := if activeReaders == 0 then RSignal else RLoop;
        case RSignal => canWrite := true; next := RLoop;
      }
      pcs := pcs[t := R(next)];
    }

    method StartWrite(t: nat)
      requires t < |pcs| && Enabled(View(), t)
      requires pcs[t].W? && AtStartWrite(pcs[t].w)
      modifies this
      ensures View() == Next(old(View()), t)
    {
      var next: WriterPC;
      match pcs[t].w {
        case WEnqueue => writeQueue := writeQueue + 1; next := WAskReaders;
        case WAskReaders => next := if activeReaders > 0 then WWaitWrite else WTryRead;
        case WTryRead =>
          if canRead { canRead := false; next := WDequeue; } else { next := WWaitWrite; }
        case WWaitWrite => canWrite := false; next := WDequeue;
        case WDequeue => writeQueue := writeQueue - 1; next := WAskLetter;
      }
      pcs := pcs[t := W(next)];
    }

    method StopWrite(t: nat)
      requires t < |pcs| && pcs[t].W? && AtStopWrite(pcs[t].w)
      modifies this
      ensures View() == Next(old(View()), t)
    {
      var next: WriterPC;
      match pcs[t].w {
        case WReset => canWrite := false; next := WAskQueue;
        case WAskQueue => next := if readQueue > 0 then WSignalRead else WSignalWrite;
        case WSignalRead => canRead := true; next := WLoop;
        case WSignalWrite => canWrite := true; next := WLoop;
      }
      pcs := pcs[t := W(next)];
    }

    /** reader(): the loop test and the print. */
    method Reader(t: nat)
      requires t < |pcs| && pcs[t].R? && (pcs[t].r.RLoop? || pcs[t].r.RPrint?)
      modifies this
      ensures View() == Next(old(View()), t)
    {
      if pcs[t].r.RLoop? {
        pcs := pcs[t := R(if cnt < LIMIT then REnqueue else RDone)];
      } else {
        pcs := pcs[t := R(RLoadDec)];
      }
    }

    /** writer(): the loop test and the update of symbol and cnt. */
    method Writer(t: nat)
      requires t < |pcs| && Enabled(View(), t) && pcs[t].W?
      requires !AtStartWrite(pcs[t].w) && !AtStopWrite(pcs[t].w)
      modifies this
      ensures View() == Next(old(View()), t)
    {
      var next: WriterPC;
      match pcs[t].w {
        case WLoop => next := if cnt < LIMIT then WEnqueue else WDone;
        case WAskLetter => next := if symbol == LOWER_Z then WLoadCnt else WLoadSymbol;
        case WLoadCnt => next := WStoreCnt(cnt);
        case WStoreCnt(c) => cnt := c + 1; next := WWrapSymbol;
        case WWrapSymbol => symbol, writes := LOWER_A, writes + 1; next := WAskCnt;
        case WLoadSymbol => next := WStoreSymbol(symbol);
        case WStoreSymbol(v) => symbol, writes := v + 1, writes + 1; next := WAskCnt;
        case WAskCnt => next := if cnt < LIMIT then WPrint else WLeave;
        case WPrint => next := WReset;
        case WLeave => next := if cnt < LIMIT then WEnqueue else WKept;
      }
      pcs := pcs[t := W(next)];
    }

    method Step(t: nat)
      requires Valid() && t < |pcs| && Enabled(View(), t)
      modifies this
      ensures Valid() && View() == Next(old(View()), t)
    {
      StepKeepsInv(View(), t);
      match pcs[t] {
        case R(r) =>
          if r.RLoop? || r.RPrint? { Reader(t); }
          else if AtStopRead(r) { StopRead(t); }
          else if r.RLock? || Locks(pcs[t]) == 1 { StartReadEnter(t); }
          else { StartReadQueue(t); }
        case W(w) =>
          if AtStartWrite(w) { StartWrite(t); }
          else if AtStopWrite(w) { StopWrite(t); }
          else { Writer(t); }
      }
    }

    method CanStep(t: nat) returns (can: bool)
      requires t < |pcs|
      ensures can == Enabled(View(), t)
    {
      can := match pcs[t]
        case R(RWaitRead) => canRead
        case R(RLock) => !bmutex
        case W(WWaitWrite) => canWrite
        case R(RDone) => false
        case W(WDone) => false
        case W(WKept) => false
        case _ => true;
    }

    /** An arbitrary scheduler: the threads of the schedule move one after the
        other, those that have to wait lose their turn. */
    method Run(schedule: seq<nat>)
      requires Valid() && forall k :: 0 <= k < |schedule| ==> schedule[k] < |pcs|
      modifies this
      ensures Valid() && |pcs| == old(|pcs|)
      ensures View() == Exec(old(View()), schedule)
    {
      for k := 0 to |schedule|
        invariant Valid() && |pcs| == old(|pcs|)
        invariant Exec(View(), schedule[k..]) == Exec(old(View()), schedule)
      {
        assert schedule[k..][1..] == schedule[k + 1..];
        var can := CanStep(schedule[k]);
        if can {
          Step(schedule[k]);
        }
      }
    }
  }
}
