/** The ticket server with a lock-free scan (sem_05/rpc/bakery_2/bakery_server.c).
    Every slot belongs to one client, whose calls of REGISTER and RESULT
    alternate; a slot nobody uses is a client that never moves. Each read or
    write of numbers[i] and each use of the mutex is one atomic step. */
module BakeryServer {
  import opened Tally
  import opened TicketQueue

  datatype PC =
    | Idle
    // register_proc_1_svc
    | Lock | LoadTicket | StoreTicket(v: int) | LoadResult | StoreSlot(r: int) | Unlock
    | Registered
    // result_proc_1_svc: i is the loop variable, r a value just read
    | TakeTicket
    | AskZero(i: nat)                        // numbers[i] != 0
    | LoadLess(i: nat) | AskLess(i: nat, r: int)    // numbers[i] < numbers[j]
    | LoadSame(i: nat) | AskSame(i: nat, r: int)    // numbers[i] == numbers[j] && i < j
    | Stamp | Clear

  /** The slots, the counter, the mutex, the program counters and, as history,
      the tickets in the order in which they were served. */
  datatype State = State(numbers: seq<int>, current: int, locked: bool, pcs: seq<PC>, log: seq<int>)

  predicate WellFormed(s: State) {
    && |s.numbers| == |s.pcs|
    && (forall t :: 0 <= t < |s.pcs| && Scanning(s.pcs[t]) ==> Position(s.pcs[t]) < |s.pcs|)
  }

  predicate Scanning(pc: PC) {
    pc.AskZero? || pc.LoadLess? || pc.AskLess? || pc.LoadSame? || pc.AskSame?
  }

  /** The slots before this one have been passed. */
  function Position(pc: PC): nat {
    match pc
    case AskZero(i) => i
    case LoadLess(i) => i
    case AskLess(i, _) => i
    case LoadSame(i) => i
    case AskSame(i, _) => i
    case _ => 0
  }

  predicate Enabled(s: State, t: nat)
    requires t < |s.pcs|
  {
    s.pcs[t].Lock? ==> !s.locked
  }

  function After(i: nat, slots: nat): PC {
    if i + 1 < slots then AskZero(i + 1) else Stamp
  }

  /** The next position of client t, given what it reads. */
  function NextPC(s: State, t: nat): PC
    requires t < |s.pcs| && WellFormed(s)
  {
    match s.pcs[t]
    case Idle => Lock
    case Lock => LoadTicket
    case LoadTicket => StoreTicket(s.current)
    case StoreTicket(v) => LoadResult
    case LoadResult => StoreSlot(s.current)
    case StoreSlot(r) => Unlock
    case Unlock => Registered
    case Registered => TakeTicket
    case TakeTicket => AskZero(0)
    case AskZero(i) => if s.numbers[i] != 0 then LoadLess(i) else After(i, |s.pcs|)
    case LoadLess(i) => AskLess(i, s.numbers[i])
    case AskLess(i, r) => if r < s.numbers[t] then AskZero(i) else LoadSame(i)
    case LoadSame(i) => AskSame(i, s.numbers[i])
    case AskSame(i, r) => if r == s.numbers[t] && i < t then AskZero(i) else After(i, |s.pcs|)
    case Stamp => Clear
    case Clear => Idle
  }

  function Next(s: State, t: nat): (r: State)
    requires t < |s.pcs| && WellFormed(s)
    ensures |r.pcs| == |s.pcs| && WellFormed(r)
  {
    var pcs := s.pcs[t := NextPC(s, t)];
    match s.pcs[t]
    case Lock => s.(pcs := pcs, locked := true)
    case StoreTicket(v) => s.(pcs := pcs, current := v + 1)
    case StoreSlot(r) => s.(pcs := pcs, numbers := s.numbers[t := r])
    case Unlock => s.(pcs := pcs, locked := false)
    case Clear => s.(pcs := pcs, numbers := s.numbers[t := 0], log := s.log + [s.numbers[t]])
    case _ => s.(pcs := pcs)
  }

  predicate Initial(s: State) {
    && |s.numbers| == |s.pcs| && s.current == 0 && !s.locked && s.log == []
    && forall t :: 0 <= t < |s.pcs| ==> s.pcs[t] == Idle && s.numbers[t] == 0
  }

  function Exec(s: State, schedule: seq<nat>): (r: State)
    requires WellFormed(s) && forall k :: 0 <= k < |schedule| ==> schedule[k] < |s.pcs|
    ensures WellFormed(r) && |r.pcs| == |s.pcs|
    decreases |schedule|
  {
    if schedule == [] then s
    else Exec(if Enabled(s, schedule[0]) then Next(s, schedule[0]) else s, schedule[1..])
  }

  // ---- The global invariant ----

  function Locks(pc: PC): nat {
    Bit(pc.LoadTicket? || pc.StoreTicket? || pc.LoadResult? || pc.StoreSlot? || pc.Unlock?)
  }

  /** The ticket client t holds, from its issue under the mutex to the clearing
      of the slot; 0 when it holds none. */
  function Ticket(s: State, t: nat): int
    requires t < |s.pcs| == |s.numbers|
  {
    match s.pcs[t]
    case Idle => 0
    case Lock => 0
    case LoadTicket => 0
    case StoreTicket(_) => 0
    case LoadResult => s.current
    case StoreSlot(r) => r
    case _ => s.numbers[t]
  }

  predicate Pending(pc: PC) {
    pc.LoadResult? || pc.StoreSlot?
  }

  predicate Empty(pc: PC) {
    pc.Idle? || pc.Lock? || pc.LoadTicket? || pc.StoreTicket?
  }

  predicate Local(s: State, t: nat)
    requires t < |s.pcs| == |s.numbers|
  {
    && (Empty(s.pcs[t]) || Pending(s.pcs[t]) <==> s.numbers[t] == 0)
    && (Pending(s.pcs[t]) ==> Ticket(s, t) == s.current)
    && (s.pcs[t].StoreTicket? ==> s.pcs[t].v == s.current)
    && (s.pcs[t].AskSame? && s.pcs[t].i != t ==> s.pcs[t].r != s.numbers[t])
  }

  predicate Locals(s: State)
    requires |s.pcs| == |s.numbers|
  {
    forall t :: 0 <= t < |s.pcs| ==> Local(s, t)
  }

  /** The tickets held are |log|+1 .. current, one client each. */
  predicate Outstanding(s: State)
    requires |s.pcs| == |s.numbers|
  {
    && (forall t :: 0 <= t < |s.pcs| ==> Empty(s.pcs[t]) || |s.log| < Ticket(s, t) <= s.current)
    && (forall t, u :: 0 <= t < u < |s.pcs| ==> Ticket(s, t) != Ticket(s, u) || Ticket(s, t) == 0)
    && (forall v :: |s.log| < v <= s.current ==> Holder(s, v))
    && |s.log| <= s.current
    && Consecutive(s.log, 1)
  }

  predicate Holder(s: State, v: int)
    requires |s.pcs| == |s.numbers|
  {
    exists t :: 0 <= t < |s.pcs| && Ticket(s, t) == v
  }

  /** The number of slots of which client t knows that they do not delay it. */
  function Passed(s: State, t: nat): nat
    requires t < |s.pcs| == |s.numbers|
  {
    match s.pcs[t]
    case AskLess(i, r) => if r < s.numbers[t] then i else i + 1
    case LoadSame(i) => i + 1
    case AskSame(i, _) => i + 1
    case Stamp => |s.pcs|
    case Clear => |s.pcs|
    case pc => Position(pc)
  }

  predicate NotAhead(s: State, k: nat, t: nat)
    requires t < |s.pcs| == |s.numbers| && k < |s.pcs|
  {
    Ticket(s, k) == 0 || Ticket(s, k) >= Ticket(s, t)
  }

  /** A slot once passed stays empty or above the scanner's own ticket. */
  predicate Scans(s: State)
    requires |s.pcs| == |s.numbers|
  {
    forall t, k :: 0 <= t < |s.pcs| && 0 <= k < |s.pcs| && k < Passed(s, t) ==> NotAhead(s, k, t)
  }

  predicate Inv(s: State) {
    && WellFormed(s)
    && Bit(s.locked) == Total(s.pcs, Locks)
    && Locals(s) && Outstanding(s) && Scans(s)
  }

  lemma InitialInv(s: State)
    requires Initial(s)
    ensures Inv(s)
  {
    TotalZero(s.pcs, Locks);
  }

  /** The mutex admits one client at a time. */
  lemma MutexAlone(s: State, t: nat)
    requires Bit(s.locked) == Total(s.pcs, Locks) && t < |s.pcs| && Locks(s.pcs[t]) == 1
    ensures s.locked
    ensures forall u :: 0 <= u < |s.pcs| && u != t ==> Locks(s.pcs[u]) == 0
  {
    TotalSole(s.pcs, t, Locks);
  }

  lemma LockKept(s: State, t: nat)
    requires Inv(s) && t < |s.pcs| && Enabled(s, t)
    ensures Bit(Next(s, t).locked) == Total(Next(s, t).pcs, Locks)
  {
    TotalUpdate(s.pcs, t, NextPC(s, t), Locks);
    if Locks(s.pcs[t]) == 1 {
      MutexAlone(s, t);
    }
  }

  /** A step of t changes nobody else's slot, ticket or position. */
  lemma Frame(s: State, t: nat, u: nat)
    requires Inv(s) && t < |s.pcs| && Enabled(s, t) && u < |s.pcs| && u != t
    ensures var s' := Next(s, t);
            && s'.pcs[u] == s.pcs[u] && s'.numbers[u] == s.numbers[u]
            && Ticket(s', u) == Ticket(s, u) && Passed(s', u) == Passed(s, u)
            && (Pending(s.pcs[u]) || s.pcs[u].StoreTicket? ==> s'.current == s.current)
  {
    if s.pcs[t].StoreTicket? {
      MutexAlone(s, t);
    }
  }

  /** The ticket of t itself: issued at the store of the counter, given back at
      the clearing of the slot, otherwise unchanged. */
  lemma OwnTicket(s: State, t: nat)
    requires Inv(s) && t < |s.pcs|
    ensures var s' := Next(s, t);
            match s.pcs[t]
            case StoreTicket(_) => Ticket(s, t) == 0 && Ticket(s', t) == s'.current == s.current + 1
            case Clear => Ticket(s', t) == 0 && Ticket(s, t) > 0 && s'.log == s.log + [Ticket(s, t)]
                          && s'.current == s.current
            case _ => Ticket(s', t) == Ticket(s, t) && s'.log == s.log && s'.current == s.current
  {
    assert Local(s, t);
  }

  lemma LocalsKept(s: State, t: nat)
    requires Inv(s) && t < |s.pcs| && Enabled(s, t)
    ensures Locals(Next(s, t))
  {
    var s' := Next(s, t);
    forall u | 0 <= u < |s'.pcs|
      ensures Local(s', u)
    {
      assert Local(s, u);
      if u != t {
        Frame(s, t, u);
      } else {
        OwnLocal(s, t);
      }
    }
  }

  lemma OwnLocal(s: State, t: nat)
    requires Inv(s) && t < |s.pcs| && Enabled(s, t)
    ensures Local(Next(s, t), t)
  {
    assert Local(s, t);
    match s.pcs[t]
    case LoadSame(i) =>
      if i != t {
        assert Local(s, i);
        assert Ticket(s, t) == s.numbers[t] > 0;
        assert s.numbers[i] != 0 ==> Ticket(s, i) == s.numbers[i];
      }
    case _ =>
  }

  /** When the scan is over, t holds the oldest ticket. */
  lemma OldestAtClear(s: State, t: nat)
    requires Inv(s) && t < |s.pcs| && (s.pcs[t].Stamp? || s.pcs[t].Clear?)
    ensures Ticket(s, t) == |s.log| + 1
  {
    assert Local(s, t);
    assert Holder(s, |s.log| + 1);
    var u :| 0 <= u < |s.pcs| && Ticket(s, u) == |s.log| + 1;
    assert NotAhead(s, u, t);
  }

  lemma OutstandingKept(s: State, t: nat)
    requires Inv(s) && t < |s.pcs| && Enabled(s, t)
    ensures Outstanding(Next(s, t))
  {
    var s' := Next(s, t);
    OwnTicket(s, t);
    if s.pcs[t].Clear? {
      OldestAtClear(s, t);
    }
    forall u | 0 <= u < |s.pcs| && u != t
      ensures Ticket(s', u) == Ticket(s, u) && s'.pcs[u] == s.pcs[u]
    {
      Frame(s, t, u);
    }
    forall v | |s'.log| < v <= s'.current
      ensures Holder(s', v)
    {
      if v <= s.current {
        assert Holder(s, v);
        var u :| 0 <= u < |s.pcs| && Ticket(s, u) == v;
        assert Ticket(s', u) == v;
      } else {
        assert Ticket(s', t) == v;
      }
    }
  }

  /** What the reads of one pass teach the scanner about slot i. */
  lemma OwnScan(s: State, t: nat, k: nat)
    requires Inv(s) && t < |s.pcs| && Enabled(s, t) && k < |s.pcs| && k < Passed(Next(s, t), t)
    ensures NotAhead(s, k, t)
  {
    assert Local(s, t) && Local(s, k);
  }

  lemma ScansKept(s: State, t: nat)
    requires Inv(s) && t < |s.pcs| && Enabled(s, t)
    ensures Scans(Next(s, t))
  {
    var s' := Next(s, t);
    OwnTicket(s, t);
    forall u, k | 0 <= u < |s'.pcs| && 0 <= k < |s'.pcs| && k < Passed(s', u)
      ensures NotAhead(s', k, u)
    {
      if u == t {
        OwnScan(s, t, k);
      } else {
        Frame(s, t, u);
        assert NotAhead(s, k, u);
      }
      if k != t {
        Frame(s, t, k);
      }
    }
  }

  lemma StepKeepsInv(s: State, t: nat)
    requires Inv(s) && t < |s.pcs| && Enabled(s, t)
    ensures Inv(Next(s, t))
  {
    LockKept(s, t);
    LocalsKept(s, t);
    OutstandingKept(s, t);
    ScansKept(s, t);
  }

  lemma {:induction false} ExecKeepsInv(s: State, schedule: seq<nat>)
    requires Inv(s) && forall k :: 0 <= k < |schedule| ==> schedule[k] < |s.pcs|
    ensures Inv(Exec(s, schedule))
    decreases |schedule|
  {
    if schedule != [] {
      if Enabled(s, schedule[0]) {
        StepKeepsInv(s, schedule[0]);
        ExecKeepsInv(Next(s, schedule[0]), schedule[1..]);
      } else {
        ExecKeepsInv(s, schedule[1..]);
      }
    }
  }

  // ---- What the invariant gives for every run ----

  /** At most one client is between the end of its scan and the clearing of its
      slot, and it is the one with the oldest ticket. */
  lemma OneClientServed(s: State, schedule: seq<nat>, t: nat, u: nat)
    requires Initial(s) && forall k :: 0 <= k < |schedule| ==> schedule[k] < |s.pcs|
    requires t < |s.pcs| && u < |s.pcs|
    ensures var r := Exec(s, schedule);
            (r.pcs[t].Stamp? || r.pcs[t].Clear?) && (r.pcs[u].Stamp? || r.pcs[u].Clear?) ==>
              t == u && r.numbers[t] == |r.log| + 1
  {
    InitialInv(s);
    ExecKeepsInv(s, schedule);
    var r := Exec(s, schedule);
    if (r.pcs[t].Stamp? || r.pcs[t].Clear?) && (r.pcs[u].Stamp? || r.pcs[u].Clear?) {
      OldestAtClear(r, t);
      OldestAtClear(r, u);
    }
  }

  /** The service log of every run is 1, 2, .., k, and the tickets outstanding
      are exactly k + 1 .. current_ticket, each with one client. */
  lemma ServedInOrder(s: State, schedule: seq<nat>)
    requires Initial(s) && forall k :: 0 <= k < |schedule| ==> schedule[k] < |s.pcs|
    ensures var r := Exec(s, schedule);
            && Consecutive(r.log, 1) && |r.log| <= r.current
            && (forall v :: v > 0 ==> (Holder(r, v) <==> |r.log| < v <= r.current))
            && (forall t, u :: 0 <= t < u < |r.pcs| && Ticket(r, t) == Ticket(r, u) ==> Ticket(r, t) == 0)
  {
    InitialInv(s);
    ExecKeepsInv(s, schedule);
    var r := Exec(s, schedule);
    assert forall t :: 0 <= t < |r.pcs| && Empty(r.pcs[t]) ==> Ticket(r, t) == 0;
  }

  ghost function Abstract(s: State): Queue
    requires |s.log| <= s.current
  {
    Queue(|s.log|, s.current)
  }

  /** Every atomic step is a step of the ticket queue or invisible to it. The
      store of current_ticket issues a ticket, the clearing of a slot serves
      the oldest one. */
  lemma RefinesTicketQueue(s: State, t: nat)
    requires Inv(s) && t < |s.pcs| && Enabled(s, t)
    ensures |Next(s, t).log| <= Next(s, t).current
    ensures var q, q' := Abstract(s), Abstract(Next(s, t));
            match s.pcs[t]
            case StoreTicket(_) => Issues(q, q') && Ticket(Next(s, t), t) == q'.issued
            case Clear => Serves(q, q') && Ticket(s, t) == q'.served
            case _ => Stutters(q, q')
  {
    OwnTicket(s, t);
    StepKeepsInv(s, t);
    if s.pcs[t].Clear? {
      OldestAtClear(s, t);
    }
  }

  /** Every run is a run of the ticket queue, which after k turns is where the
      abstraction of the state is. */
  lemma {:induction false} RunRefines(s: State, schedule: seq<nat>) returns (trace: seq<Queue>)
    requires Inv(s) && forall k :: 0 <= k < |schedule| ==> schedule[k] < |s.pcs|
    ensures |trace| == |schedule| + 1 && Inv(Exec(s, schedule))
    ensures forall k :: 0 <= k <= |schedule| ==>
              var r := Exec(s, schedule[..k]);
              |r.log| <= r.current && trace[k] == Abstract(r)
    ensures QueueRun(trace, Abstract(s), Abstract(Exec(s, schedule)))
    decreases |schedule|
  {
    if schedule == [] {
      trace := [Abstract(s)];
    } else {
      var t, rest := schedule[0], schedule[1..];
      var s' := if Enabled(s, t) then Next(s, t) else s;
      if Enabled(s, t) {
        RefinesTicketQueue(s, t);
        StepKeepsInv(s, t);
      }
      var later := RunRefines(s', rest);
      QueueRunCons(Abstract(s), later, Abstract(s'), Abstract(Exec(s', rest)));
      trace := [Abstract(s)] + later;
      forall k | 0 <= k <= |schedule|
        ensures var r := Exec(s, schedule[..k]);
                |r.log| <= r.current && trace[k] == Abstract(r)
      {
        if k > 0 {
          assert schedule[..k][1..] == rest[..k - 1];
          assert trace[k] == later[k - 1];
        }
      }
    }
  }

  // ---- The oldest client is never held up ----

  predicate InResult(pc: PC) {
    Scanning(pc) || pc.Registered? || pc.TakeTicket? || pc.Stamp? || pc.Clear?
  }

  predicate Oldest(s: State, t: nat)
    requires t < |s.pcs| == |s.numbers|
  {
    Ticket(s, t) == |s.log| + 1
  }

  /** The steps from the test of slot i to the end of the call. */
  function FromSlot(i: nat, slots: nat): nat
    requires i <= slots
  {
    5 * (slots - i) + 2
  }

  /** The own steps client t still needs while it holds the oldest ticket. A
      read that predates the last service may send it round a slot once more. */
  function Need(s: State, t: nat): nat
    requires WellFormed(s) && t < |s.pcs|
  {
    var n := |s.pcs|;
    match s.pcs[t]
    case LoadResult => FromSlot(0, n) + 5
    case StoreSlot(_) => FromSlot(0, n) + 4
    case Unlock => FromSlot(0, n) + 3
    case Registered => FromSlot(0, n) + 2
    case TakeTicket => FromSlot(0, n) + 1
    case AskZero(i) => FromSlot(i, n)
    case LoadLess(i) => if s.numbers[i] == 0 then FromSlot(i, n) + 2 else FromSlot(i, n) - 1
    case AskLess(i, r) => if r < s.numbers[t] then FromSlot(i, n) + 1 else FromSlot(i, n) - 2
    case LoadSame(i) => FromSlot(i, n) - 3
    case AskSame(i, _) => FromSlot(i, n) - 4
    case Stamp => 2
    case Clear => 1
    case _ => 0
  }

  /** The oldest client sees no smaller ticket in any slot. */
  lemma NobodyAhead(s: State, t: nat, i: nat)
    requires Inv(s) && t < |s.pcs| && Oldest(s, t) && InResult(s.pcs[t]) && i < |s.pcs|
    ensures s.numbers[i] == 0 || s.numbers[i] >= s.numbers[t]
    ensures s.numbers[t] == Ticket(s, t) > 0
    ensures s.numbers[i] == s.numbers[t] ==> i == t
  {
    assert Local(s, t) && Local(s, i);
  }

  lemma OwnStepCounts(s: State, t: nat)
    requires Inv(s) && t < |s.pcs| && Oldest(s, t)
    ensures Need(s, t) > 0
    ensures if s.pcs[t].Clear? then |Next(s, t).log| == |s.log| + 1
            else Oldest(Next(s, t), t) && Need(Next(s, t), t) < Need(s, t)
  {
    assert Local(s, t);
    OwnTicket(s, t);
    if Scanning(s.pcs[t]) {
      NobodyAhead(s, t, Position(s.pcs[t]));
    }
  }

  lemma OtherStepHarmless(s: State, t: nat, u: nat)
    requires Inv(s) && t < |s.pcs| && Oldest(s, t) && u < |s.pcs| && u != t && Enabled(s, u)
    ensures Oldest(Next(s, u), t) && Need(Next(s, u), t) <= Need(s, t)
  {
    Frame(s, u, t);
    OwnTicket(s, u);
    if s.pcs[u].Clear? {
      OldestAtClear(s, u);
      assert false;
    }
    if Scanning(s.pcs[t]) {
      var i := Position(s.pcs[t]);
      assert Local(s, u);
      if i != u {
        Frame(s, u, i);
      }
    }
  }

  lemma {:induction false} LogGrows(s: State, schedule: seq<nat>)
    requires Inv(s) && forall k :: 0 <= k < |schedule| ==> schedule[k] < |s.pcs|
    ensures |s.log| <= |Exec(s, schedule).log|
    decreases |schedule|
  {
    if schedule != [] {
      var t := schedule[0];
      if Enabled(s, t) {
        StepKeepsInv(s, t);
        LogGrows(Next(s, t), schedule[1..]);
      } else {
        LogGrows(s, schedule[1..]);
      }
    }
  }

  /** Whatever the others do, the client with the oldest ticket is served within
      Need(s, t) <= 5 slots + 7 turns of its own: no slot ever holds it up. */
  lemma {:induction false} OldestIsServed(s: State, t: nat, schedule: seq<nat>)
    requires Inv(s) && t < |s.pcs| && Oldest(s, t)
    requires forall k :: 0 <= k < |schedule| ==> schedule[k] < |s.pcs|
    requires TurnsOf(schedule, t) >= Need(s, t)
    ensures |Exec(s, schedule).log| > |s.log|
    ensures Need(s, t) <= 5 * |s.pcs| + 7
    decreases |schedule|
  {
    OwnStepCounts(s, t);
    var u, rest := schedule[0], schedule[1..];
    if !Enabled(s, u) {
      OldestIsServed(s, t, rest);
    } else {
      var s' := Next(s, u);
      StepKeepsInv(s, u);
      if u != t {
        OtherStepHarmless(s, t, u);
        OldestIsServed(s', t, rest);
      } else if s.pcs[t].Clear? {
        LogGrows(s', rest);
      } else {
        OldestIsServed(s', t, rest);
      }
    }
  }

  /** A client that holds one of the tickets up to v has held it all the time. */
  lemma {:induction false} TicketsStay(s: State, schedule: seq<nat>, u: nat, v: int)
    requires Inv(s) && forall k :: 0 <= k < |schedule| ==> schedule[k] < |s.pcs|
    requires u < |s.pcs| && v <= s.current
    ensures s.current <= Exec(s, schedule).current
    ensures 0 < Ticket(Exec(s, schedule), u) <= v ==> Ticket(s, u) == Ticket(Exec(s, schedule), u)
    decreases |schedule|
  {
    if schedule != [] {
      var t := schedule[0];
      if Enabled(s, t) {
        StepKeepsInv(s, t);
        OwnTicket(s, t);
        if u != t {
          Frame(s, t, u);
        }
        TicketsStay(Next(s, t), schedule[1..], u, v);
      } else {
        TicketsStay(s, schedule[1..], u, v);
      }
    }
  }

  predicate InRange(rounds: seq<seq<nat>>, clients: nat) {
    forall j, k :: 0 <= j < |rounds| && 0 <= k < |rounds[j]| ==> rounds[j][k] < clients
  }

  /** Several schedules, one after the other. */
  function ExecAll(s: State, rounds: seq<seq<nat>>): (r: State)
    requires WellFormed(s) && InRange(rounds, |s.pcs|)
    ensures WellFormed(r) && |r.pcs| == |s.pcs|
    decreases |rounds|
  {
    if rounds == [] then s else ExecAll(Exec(s, rounds[0]), rounds[1..])
  }

  /** Whoever holds a ticket up to v gets enough turns in each round. */
  predicate Attended(s: State, v: int, rounds: seq<seq<nat>>)
    requires |s.pcs| == |s.numbers|
  {
    forall j, u :: 0 <= j < |rounds| && 0 <= u < |s.pcs| && 0 < Ticket(s, u) <= v ==>
                     TurnsOf(rounds[j], u) >= 5 * |s.pcs| + 7
  }

  lemma StillAttended(s: State, v: int, rounds: seq<seq<nat>>)
    requires Inv(s) && v <= s.current && rounds != [] && InRange(rounds, |s.pcs|) && Attended(s, v, rounds)
    ensures Attended(Exec(s, rounds[0]), v, rounds[1..]) && v <= Exec(s, rounds[0]).current
  {
    if |s.pcs| > 0 {
      TicketsStay(s, rounds[0], 0, v);
    }
    var s' := Exec(s, rounds[0]);
    forall j, u | 0 <= j < |rounds[1..]| && 0 <= u < |s'.pcs| && 0 < Ticket(s', u) <= v
      ensures TurnsOf(rounds[1..][j], u) >= 5 * |s'.pcs| + 7
    {
      TicketsStay(s, rounds[0], u, v);
      assert rounds[1..][j] == rounds[j + 1];
    }
  }

  /** Ticket v is served within as many rounds as there are tickets up to v still
      to serve, if in each of them its holder and those with older tickets get
      5 slots + 7 turns; the other clients may do what they like. */
  lemma {:induction false} EveryTicketIsServed(s: State, v: int, rounds: seq<seq<nat>>)
    requires Inv(s) && 0 < v <= s.current && v <= |s.log| + |rounds|
    requires InRange(rounds, |s.pcs|) && Attended(s, v, rounds)
    ensures Inv(ExecAll(s, rounds)) && v in ExecAll(s, rounds).log
    decreases |rounds|
  {
    if rounds == [] {
      assert s.log[v - 1] == v;
    } else {
      var s' := Exec(s, rounds[0]);
      ExecKeepsInv(s, rounds[0]);
      LogGrows(s, rounds[0]);
      StillAttended(s, v, rounds);
      if |s.log| < v {
        assert Holder(s, |s.log| + 1);
        var t :| 0 <= t < |s.pcs| && Ticket(s, t) == |s.log| + 1;
        OldestIsServed(s, t, rounds[0]);
      }
      EveryTicketIsServed(s', v, rounds[1..]);
    }
  }

  /** The tie-break on the slot index is never decisive: two different slots
      never hold the same ticket. */
  lemma NoTies(s: State, schedule: seq<nat>, t: nat)
    requires Initial(s) && forall k :: 0 <= k < |schedule| ==> schedule[k] < |s.pcs|
    requires t < |s.pcs| && Exec(s, schedule).pcs[t].AskSame?
    ensures var pc := Exec(s, schedule).pcs[t];
            pc.i < t ==> pc.r != Exec(s, schedule).numbers[t]
  {
    InitialInv(s);
    ExecKeepsInv(s, schedule);
    assert Local(Exec(s, schedule), t);
  }

  // ---- The program ----

  // ---- Every registration comes to its end ----

  /** The own steps until the mutex is free again. */
  function RegisterLeft(pc: PC): nat {
    match pc
    case LoadTicket => 5
    case StoreTicket(_) => 4
    case LoadResult => 3
    case StoreSlot(_) => 2
    case Unlock => 1
    case _ => 0
  }

  /** The ticket that a client with the mutex gets. */
  predicate Gets(s: State, t: nat, ticket: int)
    requires t < |s.pcs| == |s.numbers|
  {
    match s.pcs[t]
    case LoadTicket => ticket == s.current + 1
    case StoreTicket(v) => ticket == s.current + 1
    case Unlock => ticket == s.current == s.numbers[t]
    case _ => ticket == s.current
  }

  function Moved(s: State, t: nat): (r: State)
    requires WellFormed(s) && t < |s.pcs|
    ensures WellFormed(r) && |r.pcs| == |s.pcs|
  {
    if Enabled(s, t) then Next(s, t) else s
  }

  /** At some moment of the run, t has registered with this ticket in its slot, the
      ticket is the last one issued, and the mutex is free. */
  predicate RegistersWith(s: State, schedule: seq<nat>, t: nat, ticket: int)
    requires WellFormed(s) && (forall k :: 0 <= k < |schedule| ==> schedule[k] < |s.pcs|) && t < |s.pcs|
    decreases |schedule|
  {
    || (s.pcs[t] == Registered && s.numbers[t] == ticket == s.current && !s.locked)
    || (schedule != [] && RegistersWith(Moved(s, schedule[0]), schedule[1..], t, ticket))
  }

  lemma OwnRegisterMove(s: State, t: nat, ticket: int)
    requires WellFormed(s) && t < |s.pcs| && Local(s, t) && Locks(s.pcs[t]) == 1 && Gets(s, t, ticket)
    ensures var s' := Moved(s, t); var pc, pc' := s.pcs[t], s'.pcs[t];
            if pc.Unlock? then pc' == Registered && s'.numbers[t] == ticket == s'.current && !s'.locked
            else Locks(pc') == 1 && RegisterLeft(pc') == RegisterLeft(pc) - 1 && Gets(s', t, ticket)
  {}

  /** The others neither issue a ticket nor touch the slot. */
  lemma OtherRegisterMove(s: State, u: nat, t: nat)
    requires Inv(s) && u < |s.pcs| && t < |s.pcs| && u != t && Locks(s.pcs[t]) == 1
    ensures Moved(s, u).pcs[t] == s.pcs[t] && Moved(s, u).current == s.current
    ensures Moved(s, u).numbers[t] == s.numbers[t]
  {
    TotalSole(s.pcs, t, Locks);
  }

  lemma {:induction false} HandlerEnds(s: State, t: nat, ticket: int, schedule: seq<nat>)
    requires Inv(s) && t < |s.pcs| && Locks(s.pcs[t]) == 1 && Gets(s, t, ticket)
    requires forall k :: 0 <= k < |schedule| ==> schedule[k] < |s.pcs|
    requires TurnsOf(schedule, t) >= RegisterLeft(s.pcs[t])
    ensures RegistersWith(s, schedule, t, ticket)
    decreases |schedule|
  {
    var u, rest := schedule[0], schedule[1..];
    if Enabled(s, u) {
      StepKeepsInv(s, u);
    }
    if u != t {
      OtherRegisterMove(s, u, t);
    } else {
      assert Local(s, t);
      OwnRegisterMove(s, t, ticket);
    }
    if Locks(Moved(s, u).pcs[t]) == 1 {
      HandlerEnds(Moved(s, u), t, ticket, rest);
    }
  }

  /** A call of REGISTER asks for the mutex, which it gets exactly while no other
      call has it; and then it leaves the next ticket in the slot of its client and
      frees the mutex, after five more steps of its own, whatever the others do. */
  lemma EveryTicketIsStored(s: State, t: nat, schedule: seq<nat>)
    requires Inv(s) && t < |s.pcs| && (s.pcs[t].Idle? || s.pcs[t].Lock?)
    requires forall k :: 0 <= k < |schedule| ==> schedule[k] < |s.pcs|
    requires TurnsOf(schedule, t) >= 5
    ensures s.pcs[t].Idle? ==> Next(s, t).pcs[t].Lock?
    ensures s.pcs[t].Lock? ==> (Enabled(s, t) <==> Total(s.pcs, Locks) == 0)
    ensures s.pcs[t].Lock? && Enabled(s, t) ==> RegistersWith(Next(s, t), schedule, t, s.current + 1)
  {
    if s.pcs[t].Lock? && Enabled(s, t) {
      StepKeepsInv(s, t);
      HandlerEnds(Next(s, t), t, s.current + 1, schedule);
    }
  }

  /** The server process: numbers, current_ticket and the mutex, with the
      position of every client's call. */
  class Server {
    const numbers: array<int>
    var currentTicket: int
    var mutexHeld: bool
    var pcs: seq<PC>
    ghost var log: seq<int>

    ghost function View(): State
      reads this, numbers
    {
      State(numbers[..], currentTicket, mutexHeld, pcs, log)
    }

    ghost predicate Valid()
      reads this, numbers
    {
      Inv(View())
    }

    constructor (maxClients: nat)
      ensures Initial(View()) && Valid() && |pcs| == maxClients && fresh(numbers)
    {
      numbers := new int[maxClients](_ => 0);
      currentTicket, mutexHeld, log := 0, false, [];
      pcs := seq(maxClients, _ => Idle);
      new;
      InitialInv(View());
    }

    /** One step of register_proc_1_svc for slot t. */
    method Register(t: nat)
      requires WellFormed(View()) && t < |pcs| && Enabled(View(), t) && (Empty(pcs[t]) || Locks(pcs[t]) == 1)
      modifies this, numbers
      ensures View() == Next(old(View()), t)
    {
      var next := Idle;
      match pcs[t] {
        case Idle => next := Lock;
        case Lock => mutexHeld := true; next := LoadTicket;
        case LoadTicket => next := StoreTicket(currentTicket);
        case StoreTicket(v) => currentTicket := v + 1; next := LoadResult;
        case LoadResult => next := StoreSlot(currentTicket);
        case StoreSlot(r) => numbers[t] := r; next := Unlock;
        case Unlock => mutexHeld := false; next := Registered;
      }
      pcs := pcs[t := next];
    }

    /** One step of result_proc_1_svc for slot t. */
    method Result(t: nat)
      requires WellFormed(View()) && t < |pcs| && InResult(pcs[t])
      modifies this, numbers
      ensures View() == Next(old(View()), t)
    {
      var next := Idle;
      match pcs[t] {
        case Registered => next := TakeTicket;
        case TakeTicket => next := AskZero(0);
        case AskZero(i) => next := if numbers[i] != 0 then LoadLess(i) else After(i, numbers.Length);
        case LoadLess(i) => next := AskLess(i, numbers[i]);
        case AskLess(i, r) => next := if r < numbers[t] then AskZero(i) else LoadSame(i);
        case LoadSame(i) => next := AskSame(i, numbers[i]);
        case AskSame(i, r) =>
          next := if r == numbers[t] && i < t then AskZero(i) else After(i, numbers.Length);
        case Stamp => next := Clear;
        case Clear => log := log + [numbers[t]]; numbers[t] := 0;
      }
      pcs := pcs[t := next];
    }

    method Step(t: nat)
      requires Valid() && t < |pcs| && Enabled(View(), t)
      modifies this, numbers
      ensures Valid() && View() == Next(old(View()), t)
    {
      StepKeepsInv(View(), t);
      if InResult(pcs[t]) {
        Result(t);
      } else {
        Register(t);
      }
    }

    /** An arbitrary scheduler; a client that waits for the mutex loses its turn. */
    method Run(schedule: seq<nat>)
      requires Valid() && forall k :: 0 <= k < |schedule| ==> schedule[k] < |pcs|
      modifies this, numbers
      ensures Valid() && |pcs| == old(|pcs|)
      ensures View() == Exec(old(View()), schedule)
    {
      for k := 0 to |schedule|
        invariant Valid() && |pcs| == old(|pcs|)
        invariant Exec(View(), schedule[k..]) == Exec(old(View()), schedule)
      {
        assert schedule[k..][1..] == schedule[k + 1..];
        if !pcs[schedule[k]].Lock? || !mutexHeld {
          Step(schedule[k]);
        }
      }
    }
  }
}
