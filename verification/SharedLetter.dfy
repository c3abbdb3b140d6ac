/** Processes that read and advance one letter in shared memory
    (sem_05/lab_03/reader-writer/main.c), for any number of readers and writers.
    Signals and the wrap counter that only decides when to send one are left out. */
module SharedLetter {
  import opened Alphabet
  import opened Semaphores
  import opened Tally
  import opened RwLock

  datatype PC =
    | RStart | RPrint | RStop
    | WStart | WLoad | WStore(v: int) | WAskWrap | WWrap | WPrint | WStop

  /** A letter that a reader printed, and how many writes there had been. */
  datatype Print = Print(letter: int, writes: nat)

  /** The semaphores, the letter *addr, the processes and, as history, the number
      of increments and what the readers printed. */
  datatype State = State(sems: seq<int>, letter: int, pcs: seq<PC>, writes: nat, printed: seq<Print>)

  function Reading(pc: PC): nat { Bit(pc.RPrint? || pc.RStop?) }

  function Writing(pc: PC): nat {
    Bit(pc.WLoad? || pc.WStore? || pc.WAskWrap? || pc.WWrap? || pc.WPrint? || pc.WStop?)
  }

  function CallAt(pc: PC): seq<SemBuf> {
    match pc
    case RStart => Ops(Shm, StartRead)
    case RStop => Ops(Shm, StopRead)
    case WStart => Ops(Shm, StartWrite)
    case WStop => Ops(Shm, StopWrite)
    case _ => []
  }

  predicate Enabled(s: State, t: nat)
    requires |s.sems| == 4 && t < |s.pcs|
  {
    Semop(s.sems, CallAt(s.pcs[t])).Done?
  }

  function NextPC(s: State, pc: PC): PC {
    match pc
    case RStart => RPrint
    case RPrint => RStop
    case RStop => RStart
    case WStart => WLoad
    case WLoad => WStore(s.letter)
    case WStore(_) => WAskWrap
    case WAskWrap => if s.letter == LOWER_Z + 1 then WWrap else WPrint
    case WWrap => WPrint
    case WPrint => WStop
    case WStop => WStart
  }

  function Next(s: State, t: nat): (r: State)
    requires |s.sems| == 4 && t < |s.pcs| && Enabled(s, t)
    ensures |r.sems| == 4 && |r.pcs| == |s.pcs|
  {
    var s1 := s.(pcs := s.pcs[t := NextPC(s, s.pcs[t])]);
    match s.pcs[t]
    case RPrint => s1.(printed := s.printed + [Print(s.letter, s.writes)])
    case WStore(v) => s1.(letter := v + 1, writes := s.writes + 1)
    case WWrap => s1.(letter := LOWER_A)
    case pc => s1.(sems := Semop(s.sems, CallAt(pc)).sems)
  }

  predicate Initial(s: State) {
    && s.sems == [0, 0, 0, 0] && s.letter == LOWER_A - 1 && s.writes == 0 && s.printed == []
    && forall t :: 0 <= t < |s.pcs| ==> s.pcs[t].RStart? || s.pcs[t].WStart?
  }

  function Exec(s: State, schedule: seq<nat>): (r: State)
    requires |s.sems| == 4 && forall k :: 0 <= k < |schedule| ==> schedule[k] < |s.pcs|
    ensures |r.sems| == 4 && |r.pcs| == |s.pcs|
    decreases |schedule|
  {
    if schedule == [] then s
    else Exec(if Enabled(s, schedule[0]) then Next(s, schedule[0]) else s, schedule[1..])
  }

  /** The letter has been stored but not wrapped yet. */
  predicate Unwrapped(pc: PC) { pc.WAskWrap? || pc.WWrap? }

  predicate Local(s: State, pc: PC) {
    match pc
    case WStore(v) => v == s.letter
    case WAskWrap => s.writes > 0 && s.letter == Letter(s.writes - 1) + 1
    case WWrap => s.letter == LOWER_Z + 1 && Letter(s.writes) == LOWER_A
    case _ => true
  }

  /** Every reader printed the letter of the writes completed so far, and no
      reader saw fewer writes than one before it. */
  predicate Printed(printed: seq<Print>, writes: nat) {
    && (forall k :: 0 <= k < |printed| ==> printed[k].letter == Letter(printed[k].writes))
    && (forall k :: 0 <= k < |printed| ==> printed[k].writes <= writes)
    && (forall k, l :: 0 <= k < l < |printed| ==> printed[k].writes <= printed[l].writes)
  }

  predicate Inv(s: State) {
    && LockInv(Shm, s.sems, s.pcs, Reading, Writing)
    && (forall t :: 0 <= t < |s.pcs| ==> Local(s, s.pcs[t]))
    && ((forall t :: 0 <= t < |s.pcs| ==> !Unwrapped(s.pcs[t])) ==> s.letter == Letter(s.writes))
    && Printed(s.printed, s.writes)
  }

  lemma InitialInv(s: State)
    requires Initial(s)
    ensures Inv(s)
  {
    TotalZero(s.pcs, Reading);
    TotalZero(s.pcs, Writing);
  }

  lemma LockKept(s: State, t: nat)
    requires Inv(s) && t < |s.pcs| && Enabled(s, t)
    ensures LockInv(Shm, Next(s, t).sems, Next(s, t).pcs, Reading, Writing)
  {
    var pc := NextPC(s, s.pcs[t]);
    match s.pcs[t] {
      case RStart => CallKeepsLock(Shm, s.sems, s.pcs, t, pc, Reading, Writing, StartRead);
      case RStop => CallKeepsLock(Shm, s.sems, s.pcs, t, pc, Reading, Writing, StopRead);
      case WStart => CallKeepsLock(Shm, s.sems, s.pcs, t, pc, Reading, Writing, StartWrite);
      case WStop => CallKeepsLock(Shm, s.sems, s.pcs, t, pc, Reading, Writing, StopWrite);
      case _ => MoveKeepsLock(Shm, s.sems, s.pcs, t, pc, Reading, Writing);
    }
  }

  /** Inside, nobody else is between a store and its wrap. */
  lemma Settled(s: State, t: nat)
    requires Inv(s) && t < |s.pcs| && (Reading(s.pcs[t]) > 0 || Writing(s.pcs[t]) > 0)
    ensures forall u :: 0 <= u < |s.pcs| && u != t ==> !Unwrapped(s.pcs[u]) && !s.pcs[u].WStore?
    ensures !Unwrapped(s.pcs[t]) ==> s.letter == Letter(s.writes)
  {
    forall u | 0 <= u < |s.pcs| && u != t
      ensures !Unwrapped(s.pcs[u]) && !s.pcs[u].WStore?
    {
      if Writing(s.pcs[u]) > 0 {
        WriterAlone(Shm, s.sems, s.pcs, u, Reading, Writing);
        assert false;
      }
    }
  }

  lemma LettersKept(s: State, t: nat)
    requires Inv(s) && t < |s.pcs| && Enabled(s, t)
    ensures var s' := Next(s, t);
            (forall u :: 0 <= u < |s'.pcs| ==> !Unwrapped(s'.pcs[u])) ==> s'.letter == Letter(s'.writes)
  {
    var s' := Next(s, t);
    assert Local(s, s.pcs[t]);
    if s.pcs[t].WStore? {
      assert Unwrapped(s'.pcs[t]);
    } else if !Unwrapped(s.pcs[t]) && forall u :: 0 <= u < |s'.pcs| ==> !Unwrapped(s'.pcs[u]) {
      forall u | 0 <= u < |s.pcs|
        ensures !Unwrapped(s.pcs[u])
      {
        assert !Unwrapped(s'.pcs[u]);
      }
    } else if s.pcs[t].WAskWrap? && s.letter == LOWER_Z + 1 {
      assert Unwrapped(s'.pcs[t]);
    }
  }

  lemma LocalKept(s: State, t: nat, u: nat)
    requires Inv(s) && t < |s.pcs| && Enabled(s, t) && u < |s.pcs|
    ensures Local(Next(s, t), Next(s, t).pcs[u])
  {
    assert Local(s, s.pcs[t]) && Local(s, s.pcs[u]);
    if Writing(s.pcs[t]) > 0 {
      Settled(s, t);
    }
  }

  lemma PrintedKept(s: State, t: nat)
    requires Inv(s) && t < |s.pcs| && Enabled(s, t)
    ensures Printed(Next(s, t).printed, Next(s, t).writes)
  {
    if s.pcs[t].RPrint? {
      Settled(s, t);
    }
  }

  lemma StepKeepsInv(s: State, t: nat)
    requires Inv(s) && t < |s.pcs| && Enabled(s, t)
    ensures Inv(Next(s, t))
  {
    LockKept(s, t);
    LettersKept(s, t);
    PrintedKept(s, t);
    forall u | 0 <= u < |s.pcs|
      ensures Local(Next(s, t), Next(s, t).pcs[u])
    {
      LocalKept(s, t, u);
    }
  }

  lemma {:induction false} ExecKeepsInv(s: State, schedule: seq<nat>)
    requires Inv(s) && forall k :: 0 <= k < |schedule| ==> schedule[k] < |s.pcs|
    ensures Inv(Exec(s, schedule))
    decreases |schedule|
  {
    if schedule != [] {
      if Enabled(s, schedule[0]) {
        StepKeepsInv(s, schedule[0]);
        ExecKeepsInv(Next(s, schedule[0]), schedule[1..]);
      } else {
        ExecKeepsInv(s, schedule[1..]);
      }
    }
  }

  /** In every run the two active semaphores count the processes inside and both
      queue semaphores are zero; no increment is lost; and every reader prints the
      letter of the writes completed by then, never the code after 'z' that a
      writer stores for a moment. */
  lemma EveryWriteCounts(s: State, schedule: seq<nat>)
    requires Initial(s) && forall k :: 0 <= k < |schedule| ==> schedule[k] < |s.pcs|
    ensures var r := Exec(s, schedule);
            && r.sems == [Total(r.pcs, Reading), Total(r.pcs, Writing), 0, 0]
            && Total(r.pcs, Writing) <= 1 && (Total(r.pcs, Writing) == 0 || Total(r.pcs, Reading) == 0)
            && (Total(r.pcs, Writing) == 0 ==> r.letter == Letter(r.writes))
            && (forall k :: 0 <= k < |r.printed| ==>
                  r.printed[k].letter == Letter(r.printed[k].writes) && r.printed[k].writes <= r.writes
                  && LOWER_A - 1 <= r.printed[k].letter <= LOWER_Z)
            && (forall k, l :: 0 <= k < l < |r.printed| ==> r.printed[k].writes <= r.printed[l].writes)
  {
    InitialInv(s);
    ExecKeepsInv(s, schedule);
    var r := Exec(s, schedule);
    if Total(r.pcs, Writing) == 0 {
      forall t | 0 <= t < |r.pcs|
        ensures !Unwrapped(r.pcs[t])
      {
        TotalCovers(r.pcs, t, t, Writing);
      }
    }
  }

  // ---- Every section does its work and ends ----

  /** When the lock lets a process at this position go on. */
  predicate Admits(pcs: seq<PC>, pc: PC) {
    match pc
    case RStart => Total(pcs, Writing) == 0
    case WStart => Total(pcs, Writing) == 0 && Total(pcs, Reading) == 0
    case _ => true
  }

  lemma LockAdmits(r: State, t: nat)
    requires LockInv(Shm, r.sems, r.pcs, Reading, Writing) && t < |r.pcs|
    ensures Enabled(r, t) <==> Admits(r.pcs, r.pcs[t])
  {
    match r.pcs[t] {
      case RStart => CallKeepsLock(Shm, r.sems, r.pcs, t, RPrint, Reading, Writing, StartRead);
      case RStop => CallKeepsLock(Shm, r.sems, r.pcs, t, RStart, Reading, Writing, StopRead);
      case WStart => CallKeepsLock(Shm, r.sems, r.pcs, t, WLoad, Reading, Writing, StartWrite);
      case WStop => CallKeepsLock(Shm, r.sems, r.pcs, t, WStart, Reading, Writing, StopWrite);
      case _ =>
    }
  }

  predicate AtStart(pc: PC) {
    pc.RStart? || pc.WStart?
  }

  function Home(pc: PC): PC {
    if pc.RStart? || pc.RPrint? || pc.RStop? then RStart else WStart
  }

  /** The own turns of a process until it is back at its start call, at most. */
  function Left(pc: PC): nat {
    match pc
    case RStart => 3
    case RPrint => 2
    case RStop => 1
    case WStart => 7
    case WLoad => 6
    case WStore(_) => 5
    case WAskWrap => 4
    case WWrap => 3
    case WPrint => 2
    case WStop => 1
  }

  function After(s: State, t: nat): (r: State)
    requires |s.sems| == 4 && t < |s.pcs|
    ensures |r.sems| == 4 && |r.pcs| == |s.pcs|
  {
    if Enabled(s, t) then Next(s, t) else s
  }

  /** At some moment of the run process t is back at its start call, after printing
      and writing exactly so many times by turns of its own. */
  predicate EndsAfter(s: State, schedule: seq<nat>, t: nat, start: PC, prints: int, writes: int)
    requires |s.sems| == 4 && (forall k :: 0 <= k < |schedule| ==> schedule[k] < |s.pcs|) && t < |s.pcs|
    decreases |schedule|
  {
    || (s.pcs[t] == start && prints == 0 && writes == 0)
    || (schedule != []
        && var s' := After(s, schedule[0]);
           if schedule[0] != t then EndsAfter(s', schedule[1..], t, start, prints, writes)
           else EndsAfter(s', schedule[1..], t, start, prints - (|s'.printed| - |s.printed|),
                          writes - (s'.writes - s.writes)))
  }

  lemma OwnStep(s: State, t: nat)
    requires |s.sems| == 4 && t < |s.pcs| && Enabled(s, t)
    ensures var s' := Next(s, t); var pc, pc' := s.pcs[t], s'.pcs[t];
            && (AtStart(pc') || Left(pc') < Left(pc)) && Home(pc') == Home(pc)
            && |s'.printed| - |s.printed| + (if AtStart(pc') then 0 else ToPrint(pc')) == ToPrint(pc)
            && s'.writes - s.writes + (if AtStart(pc') then 0 else ToWrite(pc')) == ToWrite(pc)
  {}

  function ToPrint(pc: PC): nat { Bit(pc.RStart? || pc.RPrint?) }

  function ToWrite(pc: PC): nat { Bit(pc.WStart? || pc.WLoad? || pc.WStore?) }

  /** A turn of anybody, for a process t that is inside. */
  lemma TurnInside(s: State, u: nat, t: nat)
    requires Inv(s) && u < |s.pcs| && t < |s.pcs| && !AtStart(s.pcs[t])
    ensures Inv(After(s, u))
    ensures u != t ==> After(s, u).pcs[t] == s.pcs[t]
    ensures var s' := After(s, t); var pc, pc' := s.pcs[t], s'.pcs[t];
            && (AtStart(pc') || Left(pc') < Left(pc)) && Home(pc') == Home(pc)
            && |s'.printed| - |s.printed| + (if AtStart(pc') then 0 else ToPrint(pc')) == ToPrint(pc)
            && s'.writes - s.writes + (if AtStart(pc') then 0 else ToWrite(pc')) == ToWrite(pc)
  {
    if Enabled(s, u) {
      StepKeepsInv(s, u);
    }
    LockAdmits(s, t);
    OwnStep(s, t);
  }

  lemma {:induction false} InsideEnds(s: State, schedule: seq<nat>, t: nat)
    requires Inv(s) && forall k :: 0 <= k < |schedule| ==> schedule[k] < |s.pcs|
    requires t < |s.pcs| && !AtStart(s.pcs[t]) && TurnsOf(schedule, t) >= Left(s.pcs[t])
    ensures EndsAfter(s, schedule, t, Home(s.pcs[t]), ToPrint(s.pcs[t]), ToWrite(s.pcs[t]))
    decreases |schedule|
  {
    var rest, s' := schedule[1..], After(s, schedule[0]);
    var pc, pc' := s.pcs[t], s'.pcs[t];
    TurnInside(s, schedule[0], t);
    if AtStart(pc') {
      EndsNow(s', rest, t);
      EndsLater(s, schedule, t, Home(pc), ToPrint(pc), ToWrite(pc), 0, 0);
    } else {
      InsideEnds(s', rest, t);
      EndsLater(s, schedule, t, Home(pc), ToPrint(pc), ToWrite(pc), ToPrint(pc'), ToWrite(pc'));
    }
  }

  lemma EndsNow(s: State, schedule: seq<nat>, t: nat)
    requires |s.sems| == 4 && (forall k :: 0 <= k < |schedule| ==> schedule[k] < |s.pcs|) && t < |s.pcs|
    ensures EndsAfter(s, schedule, t, s.pcs[t], 0, 0)
  {}

  lemma EndsLater(s: State, schedule: seq<nat>, t: nat, start: PC, prints: int, writes: int,
                  printsLeft: int, writesLeft: int)
    requires |s.sems| == 4 && (forall k :: 0 <= k < |schedule| ==> schedule[k] < |s.pcs|) && t < |s.pcs|
    requires schedule != [] && EndsAfter(After(s, schedule[0]), schedule[1..], t, start, printsLeft, writesLeft)
    requires schedule[0] != t ==> printsLeft == prints && writesLeft == writes
    requires schedule[0] == t ==>
               && printsLeft == prints - (|After(s, t).printed| - |s.printed|)
               && writesLeft == writes - (After(s, t).writes - s.writes)
    ensures EndsAfter(s, schedule, t, start, prints, writes)
  {}

  /** In any state that a run reaches, a start call goes through exactly when the
      lock admits the caller; and then, whatever the others do, a reader prints once
      and is back after two more turns, a writer writes once and is back after at
      most six. */
  lemma SectionEnds(r: State, t: nat, future: seq<nat>)
    requires Inv(r) && t < |r.pcs| && AtStart(r.pcs[t])
    requires forall k :: 0 <= k < |future| ==> future[k] < |r.pcs|
    ensures Enabled(r, t) <==> Total(r.pcs, Writing) == 0 && (r.pcs[t].WStart? ==> Total(r.pcs, Reading) == 0)
    ensures Enabled(r, t) && r.pcs[t].RStart? && TurnsOf(future, t) >= 2 ==>
              EndsAfter(Next(r, t), future, t, RStart, 1, 0)
    ensures Enabled(r, t) && r.pcs[t].WStart? && TurnsOf(future, t) >= 6 ==>
              EndsAfter(Next(r, t), future, t, WStart, 0, 1)
  {
    LockAdmits(r, t);
    if Enabled(r, t) && TurnsOf(future, t) >= Left(r.pcs[t]) - 1 {
      StepKeepsInv(r, t);
      OwnStep(r, t);
      InsideEnds(Next(r, t), future, t);
    }
  }

  class Processes {
    var sems: seq<int>
    var addr: int
    var pcs: seq<PC>
    ghost var writes: nat
    ghost var printed: seq<Print>

    ghost function View(): State
      reads this
    {
      State(sems, addr, pcs, writes, printed)
    }

    ghost predicate Valid()
      reads this
    {
      Inv(View())
    }

    constructor (readers: nat, writers: nat)
      ensures Initial(View()) && Valid() && |pcs| == readers + writers
    {
      sems, addr, writes, printed := [0, 0, 0, 0], LOWER_A - 1, 0, [];
      pcs := seq(writers + readers, i => if i < writers then WStart else RStart);
      new;
      InitialInv(View());
    }

    /** One step of reader(). */
    method Reader(t: nat)
      requires |sems| == 4 && t < |pcs| && Enabled(View(), t)
      requires pcs[t].RStart? || pcs[t].RPrint? || pcs[t].RStop?
      modifies this
      ensures View() == Next(old(View()), t)
    {
      match pcs[t] {
        case RStart => sems := Semop(sems, Ops(Shm, StartRead)).sems; pcs := pcs[t := RPrint];
        case RPrint => printed := printed + [Print(addr, writes)]; pcs := pcs[t := RStop];
        case RStop => sems := Semop(sems, Ops(Shm, StopRead)).sems; pcs := pcs[t := RStart];
      }
    }

    /** One step of writer(). */
    method Writer(t: nat)
      requires |sems| == 4 && t < |pcs| && Enabled(View(), t)
      requires !(pcs[t].RStart? || pcs[t].RPrint? || pcs[t].RStop?)
      modifies this
      ensures View() == Next(old(View()), t)
    {
      var next := WStart;
      match pcs[t] {
        case WStart => sems := Semop(sems, Ops(Shm, StartWrite)).sems; next := WLoad;
        case WLoad => next := WStore(addr);
        case WStore(v) => addr, writes := v + 1, writes + 1; next := WAskWrap;
        case WAskWrap => next := if addr == LOWER_Z + 1 then WWrap else WPrint;
        case WWrap => addr := LOWER_A; next := WPrint;
        case WPrint => next := WStop;
        case WStop => sems := Semop(sems, Ops(Shm, StopWrite)).sems;
      }
      pcs := pcs[t := next];
    }

    /** A turn: one step, or none while the process has to wait. */
    method Take(t: nat)
      requires Valid() && t < |pcs|
      modifies this
      ensures Valid() && |pcs| == old(|pcs|)
      ensures View() == if old(Enabled(View(), t)) then Next(old(View()), t) else old(View())
    {
      if Semop(sems, CallAt(pcs[t])).Done? {
        StepKeepsInv(View(), t);
        if pcs[t].RStart? || pcs[t].RPrint? || pcs[t].RStop? {
          Reader(t);
        } else {
          Writer(t);
        }
      }
    }

    method Run(schedule: seq<nat>)
      requires Valid() && forall k :: 0 <= k < |schedule| ==> schedule[k] < |pcs|
      modifies this
      ensures Valid() && |pcs| == old(|pcs|)
      ensures View() == Exec(old(View()), schedule)
    {
      for k := 0 to |schedule|
        invariant Valid() && |pcs| == old(|pcs|)
        invariant Exec(View(), schedule[k..]) == Exec(old(View()), schedule)
      {
        assert schedule[k..][1..] == schedule[k + 1..];
        Take(schedule[k]);
      }
    }
  }
}
