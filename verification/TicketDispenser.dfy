/** The ticket server with two counters (sem_05/rpc/compile/0). The mutex in the
    handler is commented out; the calls of GET_NUMBER are serialised by
    send_mutex, which the worker thread of bakery_svc.c holds around the handler,
    and the calls of BAKERY_PROC by running on the one dispatch thread. */
module TicketDispenser {
  import opened Tally
  import opened TicketQueue

  /** A client's position; r is the ticket it was given, v a counter just read. */
  datatype PC =
    | Idle
    // get_number_worker and get_number_1_svc
    | Lock | ReadNumber | LoadNumber(r: int) | StoreNumber(r: int, v: int) | Unlock(r: int)
    // between two calls
    | Holding(r: int)
    // bakery_proc_1_svc
    | Compare(r: int) | LoadService(r: int) | StoreService(r: int, v: int)
    | Reply(r: int, received: bool)

  /** The counters, send_mutex, whether the dispatch thread is in a handler, the
      clients and, as history, the tickets in the order of service. */
  datatype State = State(
    clientNum: int, service: int, sendMutex: bool, dispatching: bool, pcs: seq<PC>, log: seq<int>)

  predicate Enabled(s: State, t: nat)
    requires t < |s.pcs|
  {
    match s.pcs[t]
    case Lock => !s.sendMutex
    case Holding(_) => !s.dispatching
    case _ => true
  }

  function Next(s: State, t: nat): (r: State)
    requires t < |s.pcs|
    ensures |r.pcs| == |s.pcs|
  {
    match s.pcs[t]
    case Idle => s.(pcs := s.pcs[t := Lock])
    case Lock => s.(pcs := s.pcs[t := ReadNumber], sendMutex := true)
    case ReadNumber => s.(pcs := s.pcs[t := LoadNumber(s.clientNum)])
    case LoadNumber(r) => s.(pcs := s.pcs[t := StoreNumber(r, s.clientNum)])
    case StoreNumber(r, v) => s.(pcs := s.pcs[t := Unlock(r)], clientNum := v + 1)
    case Unlock(r) => s.(pcs := s.pcs[t := Holding(r)], sendMutex := false)
    case Holding(r) => s.(pcs := s.pcs[t := Compare(r)], dispatching := true)
    case Compare(r) => s.(pcs := s.pcs[t := if r != s.service then Reply(r, false) else LoadService(r)])
    case LoadService(r) => s.(pcs := s.pcs[t := StoreService(r, s.service)])
    case StoreService(r, v) => s.(pcs := s.pcs[t := Reply(r, true)], service := v + 1, log := s.log + [r])
    case Reply(r, received) => s.(pcs := s.pcs[t := if received then Idle else Holding(r)], dispatching := false)
  }

  predicate Initial(s: State) {
    && s.clientNum == 0 && s.service == 0 && !s.sendMutex && !s.dispatching && s.log == []
    && forall t :: 0 <= t < |s.pcs| ==> s.pcs[t] == Idle
  }

  function Exec(s: State, schedule: seq<nat>): (r: State)
    requires forall k :: 0 <= k < |schedule| ==> schedule[k] < |s.pcs|
    ensures |r.pcs| == |s.pcs|
    decreases |schedule|
  {
    if schedule == [] then s
    else Exec(if Enabled(s, schedule[0]) then Next(s, schedule[0]) else s, schedule[1..])
  }

  function Locks(pc: PC): nat {
    Bit(pc.ReadNumber? || pc.LoadNumber? || pc.StoreNumber? || pc.Unlock?)
  }

  function Dispatches(pc: PC): nat {
    Bit(pc.Compare? || pc.LoadService? || pc.StoreService? || pc.Reply?)
  }

  /** The ticket held from the increment of client_num to the increment of
      client_number_service; -1 outside that stretch. */
  function Ticket(pc: PC): int {
    match pc
    case Unlock(r) => r
    case Holding(r) => r
    case Compare(r) => r
    case LoadService(r) => r
    case StoreService(r, _) => r
    case Reply(r, received) => if received then -1 else r
    case _ => -1
  }

  predicate Local(s: State, pc: PC) {
    match pc
    case LoadNumber(r) => r == s.clientNum
    case StoreNumber(r, v) => r == v == s.clientNum
    case LoadService(r) => r == s.service
    case StoreService(r, v) => r == v == s.service
    case _ => true
  }

  predicate Holder(s: State, v: int) {
    exists t :: 0 <= t < |s.pcs| && Ticket(s.pcs[t]) == v
  }

  predicate Outstanding(s: State) {
    && (forall t :: 0 <= t < |s.pcs| ==> Ticket(s.pcs[t]) == -1 || s.service <= Ticket(s.pcs[t]) < s.clientNum)
    && (forall t, u :: 0 <= t < u < |s.pcs| && Ticket(s.pcs[t]) == Ticket(s.pcs[u]) ==> Ticket(s.pcs[t]) == -1)
    && (forall v :: s.service <= v < s.clientNum ==> Holder(s, v))
    && Consecutive(s.log, 0) && |s.log| == s.service <= s.clientNum
  }

  predicate Inv(s: State) {
    && Bit(s.sendMutex) == Total(s.pcs, Locks)
    && Bit(s.dispatching) == Total(s.pcs, Dispatches)
    && (forall t :: 0 <= t < |s.pcs| ==> Local(s, s.pcs[t]) && Ticket(s.pcs[t]) >= -1)
    && Outstanding(s)
  }

  lemma InitialInv(s: State)
    requires Initial(s)
    ensures Inv(s)
  {
    TotalZero(s.pcs, Locks);
    TotalZero(s.pcs, Dispatches);
  }

  lemma LocksKept(s: State, t: nat)
    requires Inv(s) && t < |s.pcs| && Enabled(s, t)
    ensures Bit(Next(s, t).sendMutex) == Total(Next(s, t).pcs, Locks)
    ensures Bit(Next(s, t).dispatching) == Total(Next(s, t).pcs, Dispatches)
  {
    TotalUpdate(s.pcs, t, Next(s, t).pcs[t], Locks);
    TotalUpdate(s.pcs, t, Next(s, t).pcs[t], Dispatches);
    TotalCovers(s.pcs, t, t, Locks);
    TotalCovers(s.pcs, t, t, Dispatches);
  }

  /** Neither counter changes under the hands of another handler. */
  lemma LocalKept(s: State, t: nat, u: nat)
    requires Inv(s) && t < |s.pcs| && Enabled(s, t) && u < |s.pcs|
    ensures Local(Next(s, t), Next(s, t).pcs[u])
    ensures Ticket(Next(s, t).pcs[u]) >= -1
  {
    assert Local(s, s.pcs[t]) && Local(s, s.pcs[u]);
    if t != u && Locks(s.pcs[t]) == 1 {
      TotalSole(s.pcs, t, Locks);
    }
    if t != u && Dispatches(s.pcs[t]) == 1 {
      TotalSole(s.pcs, t, Dispatches);
    }
  }

  /** What a step may do to the ticket of t and to the counters. */
  predicate TicketStep(s: State, s': State, t: nat)
    requires t < |s.pcs| == |s'.pcs|
  {
    var v, v' := Ticket(s.pcs[t]), Ticket(s'.pcs[t]);
    || (v == -1 && v' == s.clientNum && s'.clientNum == s.clientNum + 1
        && s'.service == s.service && s'.log == s.log)
    || (v == s.service && v' == -1 && s'.service == s.service + 1
        && s'.clientNum == s.clientNum && s'.log == s.log + [s.service])
    || (v' == v && s'.service == s.service && s'.clientNum == s.clientNum && s'.log == s.log)
  }

  /** The ticket of t: issued by one store, given back by the other. */
  lemma OwnTicket(s: State, t: nat)
    requires Inv(s) && t < |s.pcs|
    ensures var s' := Next(s, t);
            TicketStep(s, s', t) && forall u :: 0 <= u < |s.pcs| && u != t ==> s'.pcs[u] == s.pcs[u]
  {
    assert Local(s, s.pcs[t]);
  }

  lemma OutstandingKept(s: State, s': State, t: nat)
    requires Outstanding(s) && t < |s.pcs| == |s'.pcs| && TicketStep(s, s', t)
    requires forall u :: 0 <= u < |s.pcs| && u != t ==> s'.pcs[u] == s.pcs[u]
    requires s.service >= 0
    ensures Outstanding(s')
  {
    forall v | s'.service <= v < s'.clientNum
      ensures Holder(s', v)
    {
      if v < s.clientNum {
        assert Holder(s, v);
        var u :| 0 <= u < |s.pcs| && Ticket(s.pcs[u]) == v;
        assert Ticket(s'.pcs[u]) == v;
      } else {
        assert Ticket(s'.pcs[t]) == v;
      }
    }
  }

  lemma StepKeepsInv(s: State, t: nat)
    requires Inv(s) && t < |s.pcs| && Enabled(s, t)
    ensures Inv(Next(s, t))
  {
    LocksKept(s, t);
    OwnTicket(s, t);
    OutstandingKept(s, Next(s, t), t);
    forall u | 0 <= u < |s.pcs|
      ensures Local(Next(s, t), Next(s, t).pcs[u]) && Ticket(Next(s, t).pcs[u]) >= -1
    {
      LocalKept(s, t, u);
    }
  }

  lemma {:induction false} ExecKeepsInv(s: State, schedule: seq<nat>)
    requires Inv(s) && forall k :: 0 <= k < |schedule| ==> schedule[k] < |s.pcs|
    ensures Inv(Exec(s, schedule))
    decreases |schedule|
  {
    if schedule != [] {
      if Enabled(s, schedule[0]) {
        StepKeepsInv(s, schedule[0]);
        ExecKeepsInv(Next(s, schedule[0]), schedule[1..]);
      } else {
        ExecKeepsInv(s, schedule[1..]);
      }
    }
  }

  /** In every run the tickets are served as 0, 1, 2, .. and the waiting ones
      are exactly the interval between the two counters. */
  lemma ServedInOrder(s: State, schedule: seq<nat>)
    requires Initial(s) && forall k :: 0 <= k < |schedule| ==> schedule[k] < |s.pcs|
    ensures var r := Exec(s, schedule);
            && Consecutive(r.log, 0) && |r.log| == r.service
            && (forall v :: v >= 0 ==> (Holder(r, v) <==> r.service <= v < r.clientNum))
            && (forall t, u :: 0 <= t < u < |r.pcs| && Ticket(r.pcs[t]) == Ticket(r.pcs[u]) ==> Ticket(r.pcs[t]) == -1)
  {
    InitialInv(s);
    ExecKeepsInv(s, schedule);
  }

  ghost function Abstract(s: State): Queue
    requires 0 <= s.service && 0 <= s.clientNum
  {
    Queue(s.service, s.clientNum)
  }

  /** The same ticket queue as that of the scanning server: the increment of
      client_num issues, that of client_number_service serves the oldest ticket,
      and a poll with any other ticket changes nothing. */
  lemma RefinesTicketQueue(s: State, t: nat)
    requires Inv(s) && t < |s.pcs| && Enabled(s, t)
    ensures 0 <= Next(s, t).service && 0 <= Next(s, t).clientNum
    ensures var q, q' := Abstract(s), Abstract(Next(s, t));
            match s.pcs[t]
            case StoreNumber(r, _) => Issues(q, q') && r == q.issued == Ticket(Next(s, t).pcs[t])
            case StoreService(r, _) => Serves(q, q') && r == q.served
            case _ => Stutters(q, q')
  {
    StepKeepsInv(s, t);
    assert Local(s, s.pcs[t]);
  }

  /** Every run is a run of the ticket queue, which after k turns is where the
      abstraction of the state is. */
  lemma {:induction false} RunRefines(s: State, schedule: seq<nat>) returns (trace: seq<Queue>)
    requires Inv(s) && forall k :: 0 <= k < |schedule| ==> schedule[k] < |s.pcs|
    ensures |trace| == |schedule| + 1 && Inv(Exec(s, schedule))
    ensures forall k :: 0 <= k <= |schedule| ==>
              var r := Exec(s, schedule[..k]);
              0 <= r.service && 0 <= r.clientNum && trace[k] == Abstract(r)
    ensures QueueRun(trace, Abstract(s), Abstract(Exec(s, schedule)))
    decreases |schedule|
  {
    if schedule == [] {
      trace := [Abstract(s)];
    } else {
      var t, rest := schedule[0], schedule[1..];
      var s' := if Enabled(s, t) then Next(s, t) else s;
      if Enabled(s, t) {
        RefinesTicketQueue(s, t);
        StepKeepsInv(s, t);
      }
      var later := RunRefines(s', rest);
      QueueRunCons(Abstract(s), later, Abstract(s'), Abstract(Exec(s', rest)));
      trace := [Abstract(s)] + later;
      forall k | 0 <= k <= |schedule|
        ensures var r := Exec(s, schedule[..k]);
                0 <= r.service && 0 <= r.clientNum && trace[k] == Abstract(r)
      {
        if k > 0 {
          assert schedule[..k][1..] == rest[..k - 1];
          assert trace[k] == later[k - 1];
        }
      }
    }
  }

  // ---- The next client is served when it polls ----

  /** The own steps until the poll of the client whose turn it is has been served. */
  function Left(s: State, pc: PC): nat {
    match pc
    case Compare(r) => if r == s.service then 3 else 0
    case LoadService(_) => 2
    case StoreService(_, _) => 1
    case _ => 0
  }

  /** While a poll is handled, no step of another client touches it. */
  lemma PollUndisturbed(s: State, t: nat, u: nat)
    requires Inv(s) && t < |s.pcs| && u < |s.pcs| && u != t && Enabled(s, u) && Left(s, s.pcs[t]) > 0
    ensures Next(s, u).pcs[t] == s.pcs[t] && Next(s, u).service == s.service
    ensures Next(s, u).log == s.log
  {
    TotalSole(s.pcs, t, Dispatches);
    OwnTicket(s, u);
  }

  /** A poll with the number in client_number_service, once it is handled, is
      answered with the service after three steps of its own, whatever the others
      do. */
  lemma {:induction false} PollIsAnswered(s: State, t: nat, schedule: seq<nat>)
    requires Inv(s) && t < |s.pcs| && Left(s, s.pcs[t]) > 0
    requires forall k :: 0 <= k < |schedule| ==> schedule[k] < |s.pcs|
    requires TurnsOf(schedule, t) >= Left(s, s.pcs[t])
    ensures Ticket(s.pcs[t]) == s.service && s.service in Exec(s, schedule).log
    decreases |schedule|
  {
    assert Local(s, s.pcs[t]);
    var u, rest := schedule[0], schedule[1..];
    if !Enabled(s, u) {
      PollIsAnswered(s, t, rest);
    } else {
      StepKeepsInv(s, u);
      if u != t {
        PollUndisturbed(s, t, u);
        PollIsAnswered(Next(s, u), t, rest);
      } else if s.pcs[t].StoreService? {
        assert Next(s, t).log[|s.log|] == s.service;
        LogStays(Next(s, t), rest, s.service);
      } else {
        PollIsAnswered(Next(s, t), t, rest);
      }
    }
  }

  lemma {:induction false} LogStays(s: State, schedule: seq<nat>, v: int)
    requires forall k :: 0 <= k < |schedule| ==> schedule[k] < |s.pcs|
    requires v in s.log
    ensures v in Exec(s, schedule).log
    decreases |schedule|
  {
    if schedule != [] {
      LogStays(if Enabled(s, schedule[0]) then Next(s, schedule[0]) else s, schedule[1..], v);
    }
  }

  /** A poll can begin whenever no other is being handled, and it is answered with
      the service if and only if its number is the one to be served. */
  lemma PollBegins(s: State, t: nat)
    requires Inv(s) && t < |s.pcs| && s.pcs[t].Holding?
    ensures Enabled(s, t) <==> Total(s.pcs, Dispatches) == 0
    ensures Left(Next(s, t), Next(s, t).pcs[t]) > 0 <==> s.pcs[t].r == s.service
  {}

  // ---- Every call comes to its end ----

  function After(s: State, t: nat): (r: State)
    requires t < |s.pcs|
    ensures |r.pcs| == |s.pcs|
  {
    if Enabled(s, t) then Next(s, t) else s
  }

  /** The own steps until the dispatch thread is free again, at most. */
  function PollLeft(pc: PC): nat {
    match pc
    case Compare(_) => 4
    case LoadService(_) => 3
    case StoreService(_, _) => 2
    case Reply(_, _) => 1
    case _ => 0
  }

  /** At some moment of the run, t is at this position, the dispatch thread is free,
      and so many tickets have been served. */
  predicate LeavesDispatch(s: State, schedule: seq<nat>, t: nat, pc: PC, service: int)
    requires (forall k :: 0 <= k < |schedule| ==> schedule[k] < |s.pcs|) && t < |s.pcs|
    decreases |schedule|
  {
    || (s.pcs[t] == pc && !s.dispatching && s.service == service)
    || (schedule != [] && LeavesDispatch(After(s, schedule[0]), schedule[1..], t, pc, service))
  }

  /** Where a poll ends, and what it makes of client_number_service. */
  function PollEnd(s: State, pc: PC): (PC, int) {
    match pc
    case Compare(r) => if r == s.service then (Idle, s.service + 1) else (Holding(r), s.service)
    case Reply(r, received) => (if received then Idle else Holding(r), s.service)
    case _ => (Idle, s.service + 1)
  }

  lemma OwnPollMove(s: State, t: nat)
    requires t < |s.pcs| && Local(s, s.pcs[t]) && Dispatches(s.pcs[t]) == 1
    ensures var s' := Next(s, t); var pc, pc' := s.pcs[t], s'.pcs[t];
            if pc.Reply? then !s'.dispatching && (pc', s'.service) == PollEnd(s, pc)
            else Dispatches(pc') == 1 && PollLeft(pc') < PollLeft(pc) && PollEnd(s', pc') == PollEnd(s, pc)
  {}

  /** While a poll is handled, the others neither touch it nor serve anybody. */
  lemma OtherPollMove(s: State, u: nat, t: nat)
    requires Inv(s) && u < |s.pcs| && t < |s.pcs| && u != t && Dispatches(s.pcs[t]) == 1
    ensures After(s, u).pcs[t] == s.pcs[t] && After(s, u).service == s.service
  {
    TotalSole(s.pcs, t, Dispatches);
  }

  lemma AfterKeepsInv(s: State, t: nat)
    requires Inv(s) && t < |s.pcs|
    ensures Inv(After(s, t)) && Local(s, s.pcs[t])
  {
    if Enabled(s, t) {
      StepKeepsInv(s, t);
    }
  }

  lemma {:induction false} DispatchEnds(s: State, t: nat, schedule: seq<nat>)
    requires Inv(s) && t < |s.pcs| && Dispatches(s.pcs[t]) == 1
    requires forall k :: 0 <= k < |schedule| ==> schedule[k] < |s.pcs|
    requires TurnsOf(schedule, t) >= PollLeft(s.pcs[t])
    ensures var (pc, service) := PollEnd(s, s.pcs[t]); LeavesDispatch(s, schedule, t, pc, service)
    decreases |schedule|
  {
    var u, rest := schedule[0], schedule[1..];
    AfterKeepsInv(s, u);
    if u == t {
      OwnPollMove(s, t);
    } else {
      OtherPollMove(s, u, t);
    }
    if Dispatches(After(s, u).pcs[t]) == 1 {
      DispatchEnds(After(s, u), t, rest);
    }
  }

  /** A poll that begins leaves the dispatch thread after at most four more steps of
      its own, whatever the others do: with its number as before and nothing served
      if that is not the number to be served, otherwise served, as one more. */
  lemma EveryPollEnds(s: State, t: nat, schedule: seq<nat>)
    requires Inv(s) && t < |s.pcs| && s.pcs[t].Holding? && Enabled(s, t)
    requires forall k :: 0 <= k < |schedule| ==> schedule[k] < |s.pcs|
    requires TurnsOf(schedule, t) >= 4
    ensures var r := s.pcs[t].r;
            if r != s.service then LeavesDispatch(Next(s, t), schedule, t, Holding(r), s.service)
            else LeavesDispatch(Next(s, t), schedule, t, Idle, s.service + 1)
  {
    StepKeepsInv(s, t);
    DispatchEnds(Next(s, t), t, schedule);
  }

  /** The own steps until send_mutex is free again. */
  function NumberLeft(pc: PC): nat {
    match pc
    case ReadNumber => 4
    case LoadNumber(_) => 3
    case StoreNumber(_, _) => 2
    case Unlock(_) => 1
    case _ => 0
  }

  /** At some moment of the run, t holds this ticket, the next one is one more, and
      send_mutex is free. */
  predicate LeavesWithNumber(s: State, schedule: seq<nat>, t: nat, number: int)
    requires (forall k :: 0 <= k < |schedule| ==> schedule[k] < |s.pcs|) && t < |s.pcs|
    decreases |schedule|
  {
    || (s.pcs[t] == Holding(number) && !s.sendMutex && s.clientNum == number + 1)
    || (schedule != [] && LeavesWithNumber(After(s, schedule[0]), schedule[1..], t, number))
  }

  /** The number that a client with the mutex gets. */
  predicate Gets(s: State, pc: PC, number: int) {
    if pc.Unlock? then pc.r == number == s.clientNum - 1 else number == s.clientNum
  }

  lemma OwnNumberMove(s: State, t: nat, number: int)
    requires t < |s.pcs| && Local(s, s.pcs[t]) && Locks(s.pcs[t]) == 1 && Gets(s, s.pcs[t], number)
    ensures var s' := Next(s, t); var pc, pc' := s.pcs[t], s'.pcs[t];
            if pc.Unlock? then pc' == Holding(number) && !s'.sendMutex && s'.clientNum == number + 1
            else Locks(pc') == 1 && NumberLeft(pc') == NumberLeft(pc) - 1 && Gets(s', pc', number)
  {}

  lemma OtherNumberMove(s: State, u: nat, t: nat)
    requires Inv(s) && u < |s.pcs| && t < |s.pcs| && u != t && Locks(s.pcs[t]) == 1
    ensures After(s, u).pcs[t] == s.pcs[t] && After(s, u).clientNum == s.clientNum
  {
    TotalSole(s.pcs, t, Locks);
  }

  lemma {:induction false} HandlerEnds(s: State, t: nat, number: int, schedule: seq<nat>)
    requires Inv(s) && t < |s.pcs| && Locks(s.pcs[t]) == 1 && Gets(s, s.pcs[t], number)
    requires forall k :: 0 <= k < |schedule| ==> schedule[k] < |s.pcs|
    requires TurnsOf(schedule, t) >= NumberLeft(s.pcs[t])
    ensures LeavesWithNumber(s, schedule, t, number)
    decreases |schedule|
  {
    var u, rest := schedule[0], schedule[1..];
    AfterKeepsInv(s, u);
    if u == t {
      OwnNumberMove(s, t, number);
    } else {
      OtherNumberMove(s, u, t);
    }
    if Locks(After(s, u).pcs[t]) == 1 {
      HandlerEnds(After(s, u), t, number, rest);
    }
  }

  /** A call of GET_NUMBER asks for send_mutex, which it gets exactly while no other
      call has it; and then it gives the client the number in client_num, advances
      that, and frees the mutex, after four more steps of its own. */
  lemma EveryNumberIsGiven(s: State, t: nat, schedule: seq<nat>)
    requires Inv(s) && t < |s.pcs| && (s.pcs[t].Idle? || s.pcs[t].Lock?)
    requires forall k :: 0 <= k < |schedule| ==> schedule[k] < |s.pcs|
    requires TurnsOf(schedule, t) >= 4
    ensures s.pcs[t].Idle? ==> Next(s, t).pcs[t].Lock?
    ensures s.pcs[t].Lock? ==> (Enabled(s, t) <==> Total(s.pcs, Locks) == 0)
    ensures s.pcs[t].Lock? && Enabled(s, t) ==> LeavesWithNumber(Next(s, t), schedule, t, s.clientNum)
  {
    if s.pcs[t].Lock? && Enabled(s, t) {
      StepKeepsInv(s, t);
      HandlerEnds(Next(s, t), t, s.clientNum, schedule);
    }
  }

  /** The server process of sem_05/rpc/compile/0. */
  class Server {
    var clientNum: int
    var clientNumberService: int
    var sendMutexHeld: bool
    var dispatching: bool
    var pcs: seq<PC>
    ghost var log: seq<int>

    ghost function View(): State
      reads this
    {
      State(clientNum, clientNumberService, sendMutexHeld, dispatching, pcs, log)
    }

    ghost predicate Valid()
      reads this
    {
      Inv(View())
    }

    constructor (clients: nat)
      ensures Initial(View()) && Valid() && |pcs| == clients
    {
      clientNum, clientNumberService := 0, 0;
      sendMutexHeld, dispatching, log := false, false, [];
      pcs := seq(clients, _ => Idle);
      new;
      InitialInv(View());
    }

    /** One step of get_number_worker with get_number_1_svc inside it. */
    method GetNumber(t: nat)
      requires t < |pcs| && Enabled(View(), t)
      requires pcs[t].Idle? || pcs[t].Lock? || Locks(pcs[t]) == 1
      modifies this
      ensures View() == Next(old(View()), t)
    {
      var next := Idle;
      match pcs[t] {
        case Idle => next := Lock;
        case Lock => sendMutexHeld := true; next := ReadNumber;
        case ReadNumber => next := LoadNumber(clientNum);
        case LoadNumber(r) => next := StoreNumber(r, clientNum);
        case StoreNumber(r, v) => clientNum := v + 1; next := Unlock(r);
        case Unlock(r) => sendMutexHeld := false; next := Holding(r);
      }
      pcs := pcs[t := next];
    }

    /** One step of the dispatch of bakery_proc_1_svc. */
    method BakeryProc(t: nat)
      requires t < |pcs| && Enabled(View(), t) && (pcs[t].Holding? || Dispatches(pcs[t]) == 1)
      modifies this
      ensures View() == Next(old(View()), t)
    {
      var next := Idle;
      match pcs[t] {
        case Holding(r) => dispatching := true; next := Compare(r);
        case Compare(r) => next := if r != clientNumberService then Reply(r, false) else LoadService(r);
        case LoadService(r) => next := StoreService(r, clientNumberService);
        case StoreService(r, v) => clientNumberService, log := v + 1, log + [r]; next := Reply(r, true);
        case Reply(r, received) => dispatching := false; next := if received then Idle else Holding(r);
      }
      pcs := pcs[t := next];
    }

    method Run(schedule: seq<nat>)
      requires Valid() && forall k :: 0 <= k < |schedule| ==> schedule[k] < |pcs|
      modifies this
      ensures Valid() && |pcs| == old(|pcs|)
      ensures View() == Exec(old(View()), schedule)
    {
      for k := 0 to |schedule|
        invariant Valid() && |pcs| == old(|pcs|)
        invariant Exec(View(), schedule[k..]) == Exec(old(View()), schedule)
      {
        assert schedule[k..][1..] == schedule[k + 1..];
        var t := schedule[k];
        if (pcs[t].Lock? ==> !sendMutexHeld) && (pcs[t].Holding? ==> !dispatching) {
          StepKeepsInv(View(), t);
          if pcs[t].Holding? || Dispatches(pcs[t]) == 1 {
            BakeryProc(t);
          } else {
            GetNumber(t);
          }
        }
      }
    }
  }
}
