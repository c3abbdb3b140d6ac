/** What the functions of the event monitor hand to each other: which event a
    stop_* call sets, which one a start_* call takes, and what a whole round of a
    loop does when nobody interferes (sem_05/lab_03/reader-writer_win/main.c). */
module MonitorHandover {
  import opened Alphabet
  import opened EventMonitor
  import opened Tally

  predicate InRange(schedule: seq<nat>, threads: nat) {
    forall k :: 0 <= k < |schedule| ==> schedule[k] < threads
  }

  /** The steps of others leave a thread where it stands. */
  lemma {:induction false} Bystander(s: State, schedule: seq<nat>, t: nat)
    requires InRange(schedule, |s.pcs|) && t < |s.pcs| && t !in schedule
    ensures Exec(s, schedule).pcs[t] == s.pcs[t]
    decreases |schedule|
  {
    if schedule != [] {
      assert schedule[0] in schedule;
      Bystander(if Enabled(s, schedule[0]) then Next(s, schedule[0]) else s, schedule[1..], t);
    }
  }

  // ---- stop_write and stop_read ----

  /** A writer that stands at the test of read_queue makes its next two steps,
      whatever the others do before and between: then can_read is signalled if
      read_queue was positive at the test, and can_write if it was not. */
  lemma WriterHandsOver(s: State, t: nat, before: seq<nat>, between: seq<nat>)
    requires Inv(s) && t < |s.pcs| && s.pcs[t] == W(WAskQueue)
    requires InRange(before, |s.pcs|) && t !in before && InRange(between, |s.pcs|) && t !in between
    ensures var test := Exec(s, before);
            var done := Next(Exec(Next(test, t), between), t);
            && done.pcs[t] == W(WLoop)
            && (done.sh.canRead <==> test.sh.readQueue > 0)
            && (done.sh.canWrite <==> test.sh.readQueue <= 0)
  {
    var test := Exec(s, before);
    ExecKeepsInv(s, before);
    Bystander(s, before, t);
    StepKeepsInv(test, t);
    SignalFollows(Next(test, t), t, between);
  }

  /** Whatever the others do, the chosen event is set. */
  lemma SignalFollows(s: State, t: nat, between: seq<nat>)
    requires Inv(s) && t < |s.pcs| && (s.pcs[t] == W(WSignalRead) || s.pcs[t] == W(WSignalWrite))
    requires InRange(between, |s.pcs|) && t !in between
    ensures var done := Next(Exec(s, between), t);
            && done.pcs[t] == W(WLoop)
            && (done.sh.canRead <==> s.pcs[t] == W(WSignalRead))
            && (done.sh.canWrite <==> s.pcs[t] == W(WSignalWrite))
  {
    ExecKeepsInv(s, between);
    Bystander(s, between, t);
    Alone(Exec(s, between), t);
  }

  /** The steps from the decrement of active_readers to the end of stop_read. */
  function StopLeft(r: ReaderPC): nat {
    match r
    case RLoadDec => 4
    case RStoreDec(_) => 3
    case RAskZero => 2
    case RSignal => 1
    case _ => 0
  }

  /** While a reader is inside, active_readers counts it alone, from its
      increment to its decrement. */
  lemma CountedAlone(s: State, t: nat)
    requires Inv(s) && t < |s.pcs| && Inside(s.pcs[t])
    ensures s.sh.activeReaders == Active(s.pcs[t]) && !s.sh.canRead && !s.sh.canWrite
  {
    Alone(s, t);
    OnlyMine(s, t, Active);
  }

  /** A reader in stop_read makes its remaining steps, whatever the others do
      between: it always signals can_write. */
  lemma {:induction false} ReaderHandsOver(s: State, t: nat, schedule: seq<nat>)
    requires Inv(s) && t < |s.pcs| && s.pcs[t].R? && StopLeft(s.pcs[t].r) > 0
    requires InRange(schedule, |s.pcs|) && TurnsOf(schedule, t) == StopLeft(s.pcs[t].r)
    requires schedule[|schedule| - 1] == t
    ensures Exec(s, schedule).pcs[t] == R(RLoop)
    ensures Exec(s, schedule).sh.canWrite && !Exec(s, schedule).sh.canRead
    decreases |schedule|
  {
    var u, rest := schedule[0], schedule[1..];
    var s' := if Enabled(s, u) then Next(s, u) else s;
    if Enabled(s, u) {
      StepKeepsInv(s, u);
    }
    CountedAlone(s, t);
    assert Local(s.sh, s.pcs[t]);
    if u == t && StopLeft(s.pcs[t].r) == 1 {
      if rest != [] {
        LastCounts(rest, t);
        assert false;
      }
      assert Exec(s, schedule) == Exec(s', rest) == s';
    } else {
      assert rest != [];
      assert rest[|rest| - 1] == t;
      ReaderHandsOver(s', t, rest);
    }
  }

  lemma {:induction false} LastCounts(schedule: seq<nat>, t: nat)
    requires schedule != [] && schedule[|schedule| - 1] == t
    ensures TurnsOf(schedule, t) > 0
  {
    if |schedule| > 1 {
      LastCounts(schedule[1..], t);
    }
  }

  // ---- start_read and start_write ----

  /** Whether thread t gets inside during a schedule. */
  predicate GetsInside(s: State, schedule: seq<nat>, t: nat)
    requires InRange(schedule, |s.pcs|) && t < |s.pcs|
    decreases |schedule|
  {
    schedule != [] &&
    if Enabled(s, schedule[0])
    then (schedule[0] == t && Enters(s, t)) || GetsInside(Next(s, schedule[0]), schedule[1..], t)
    else GetsInside(s, schedule[1..], t)
  }

  /** The thread can go on if and only if can_read is signalled, and then it goes in
      and takes that event and no other. */
  predicate NeedsCanRead(s: State, t: nat)
    requires t < |s.pcs|
  {
    && (Enabled(s, t) <==> s.sh.canRead)
    && Enters(s, t) && !Next(s, t).sh.canRead && Next(s, t).sh.canWrite == s.sh.canWrite
  }

  predicate NeedsCanWrite(s: State, t: nat)
    requires t < |s.pcs|
  {
    && (Enabled(s, t) <==> s.sh.canWrite)
    && Enters(s, t) && !Next(s, t).sh.canWrite && Next(s, t).sh.canRead == s.sh.canRead
  }

  lemma {:induction false} ReaderWaits(s: State, t: nat, schedule: seq<nat>)
    requires t < |s.pcs| && s.pcs[t] == R(RWaitRead) && InRange(schedule, |s.pcs|)
    ensures GetsInside(s, schedule, t) || NeedsCanRead(Exec(s, schedule), t)
    decreases |schedule|
  {
    if schedule != [] && !GetsInside(s, schedule, t) {
      ReaderWaits(if Enabled(s, schedule[0]) then Next(s, schedule[0]) else s, t, schedule[1..]);
    }
  }

  lemma {:induction false} WriterWaits(s: State, t: nat, schedule: seq<nat>)
    requires t < |s.pcs| && s.pcs[t] == W(WWaitWrite) && InRange(schedule, |s.pcs|)
    ensures GetsInside(s, schedule, t) || NeedsCanWrite(Exec(s, schedule), t)
    decreases |schedule|
  {
    if schedule != [] && !GetsInside(s, schedule, t) {
      WriterWaits(if Enabled(s, schedule[0]) then Next(s, schedule[0]) else s, t, schedule[1..]);
    }
  }

  /** A reader that finds a writer queued takes can_read or nothing: until it is
      inside, however long that takes, can_read is what it needs. */
  lemma ReaderGivesWay(s: State, t: nat, schedule: seq<nat>)
    requires t < |s.pcs| && s.pcs[t] == R(RAskWriters) && s.sh.writeQueue > 0 && InRange(schedule, |s.pcs|)
    ensures GetsInside(Next(s, t), schedule, t) || NeedsCanRead(Exec(Next(s, t), schedule), t)
  {
    ReaderWaits(Next(s, t), t, schedule);
  }

  /** A reader that finds no writer queued tries can_write at its next step: if it
      is signalled then, the reader takes it and goes in; if not, can_read is what
      it needs from then on. */
  lemma ReaderTries(s: State, t: nat, between: seq<nat>, schedule: seq<nat>)
    requires t < |s.pcs| && s.pcs[t] == R(RAskWriters) && s.sh.writeQueue <= 0
    requires InRange(between, |s.pcs|) && t !in between && InRange(schedule, |s.pcs|)
    ensures var tries := Exec(Next(s, t), between);
            if tries.sh.canWrite
            then Enabled(tries, t) && Enters(tries, t) && !Next(tries, t).sh.canWrite
                 && Next(tries, t).sh.canRead == tries.sh.canRead
            else Next(tries, t).sh == tries.sh
                 && (GetsInside(Next(tries, t), schedule, t) || NeedsCanRead(Exec(Next(tries, t), schedule), t))
  {
    var tries := Exec(Next(s, t), between);
    Bystander(Next(s, t), between, t);
    if !tries.sh.canWrite {
      ReaderWaits(Next(tries, t), t, schedule);
    }
  }

  /** A writer that finds a reader active takes can_write or nothing. */
  lemma WriterGivesWay(s: State, t: nat, schedule: seq<nat>)
    requires t < |s.pcs| && s.pcs[t] == W(WAskReaders) && s.sh.activeReaders > 0 && InRange(schedule, |s.pcs|)
    ensures GetsInside(Next(s, t), schedule, t) || NeedsCanWrite(Exec(Next(s, t), schedule), t)
  {
    WriterWaits(Next(s, t), t, schedule);
  }

  /** A writer that finds no reader active tries can_read at its next step, and
      needs can_write from then on if that is not signalled. */
  lemma WriterTries(s: State, t: nat, between: seq<nat>, schedule: seq<nat>)
    requires t < |s.pcs| && s.pcs[t] == W(WAskReaders) && s.sh.activeReaders <= 0
    requires InRange(between, |s.pcs|) && t !in between && InRange(schedule, |s.pcs|)
    ensures var tries := Exec(Next(s, t), between);
            if tries.sh.canRead
            then Enabled(tries, t) && Enters(tries, t) && !Next(tries, t).sh.canRead
                 && Next(tries, t).sh.canWrite == tries.sh.canWrite
            else Next(tries, t).sh == tries.sh
                 && (GetsInside(Next(tries, t), schedule, t) || NeedsCanWrite(Exec(Next(tries, t), schedule), t))
  {
    var tries := Exec(Next(s, t), between);
    Bystander(Next(s, t), between, t);
    if !tries.sh.canRead {
      WriterWaits(Next(tries, t), t, schedule);
    }
  }

  // ---- Whole rounds without interference ----

  /** n steps of one thread while all others stand still. */
  function Solo(sh: Shared, pc: PC, n: nat): (Shared, PC)
    decreases n
  {
    if n == 0 || !CanMove(sh, pc) then (sh, pc) else Solo(Move(sh, pc).0, Move(sh, pc).1, n - 1)
  }

  lemma {:induction false} SoloIsExec(s: State, t: nat, n: nat)
    requires t < |s.pcs|
    ensures var (sh, pc) := Solo(s.sh, s.pcs[t], n);
            Exec(s, seq(n, _ => t)) == State(sh, s.pcs[t := pc])
    decreases n
  {
    var turns := seq(n, _ => t);
    if n == 0 {
      assert s.pcs[t := s.pcs[t]] == s.pcs;
    } else {
      assert turns[0] == t && turns[1..] == seq(n - 1, _ => t);
      if Enabled(s, t) {
        SoloIsExec(Next(s, t), t, n - 1);
        assert s.pcs[t := Next(s, t).pcs[t]][t := Solo(s.sh, s.pcs[t], n).1] == s.pcs[t := Solo(s.sh, s.pcs[t], n).1];
      } else {
        SoloIsExec(s, t, n - 1);
      }
    }
  }

  /** Some number of steps of one thread alone lead from here to there. */
  ghost predicate Leads(sh: Shared, pc: PC, sh': Shared, pc': PC) {
    exists n: nat :: Solo(sh, pc, n) == (sh', pc')
  }

  /** What a thread leads to alone is a run of the process. */
  lemma LeadsInRun(s: State, t: nat, sh': Shared, pc': PC) returns (n: nat)
    requires t < |s.pcs| && Leads(s.sh, s.pcs[t], sh', pc')
    ensures Exec(s, seq(n, _ => t)) == State(sh', s.pcs[t := pc'])
  {
    n :| Solo(s.sh, s.pcs[t], n) == (sh', pc');
    SoloIsExec(s, t, n);
  }

  /** One step, and then what the state it makes leads to. */
  lemma StepLeads(sh: Shared, pc: PC, sh': Shared, pc': PC)
    requires CanMove(sh, pc) && Leads(Move(sh, pc).0, Move(sh, pc).1, sh', pc')
    ensures Leads(sh, pc, sh', pc')
  {
    var n: nat :| Solo(Move(sh, pc).0, Move(sh, pc).1, n) == (sh', pc');
    assert Solo(sh, pc, n + 1) == (sh', pc');
  }

  lemma StayLeads(sh: Shared, pc: PC)
    ensures Leads(sh, pc, sh, pc)
  {
    assert Solo(sh, pc, 0) == (sh, pc);
  }

  /** Both ends of reader(): what a reader does once it has its event. */
  lemma ReaderStops(sh: Shared)
    requires sh.activeReaders == 1
    ensures Leads(sh, R(RPrint), sh.(activeReaders := 0, canWrite := true), R(RLoop))
  {
    var left := sh.(activeReaders := 0);
    var done := left.(canWrite := true);
    StayLeads(done, R(RLoop));
    StepLeads(left, R(RSignal), done, R(RLoop));
    StepLeads(left, R(RAskZero), done, R(RLoop));
    StepLeads(sh, R(RStoreDec(1)), done, R(RLoop));
    StepLeads(sh, R(RLoadDec), done, R(RLoop));
    StepLeads(sh, R(RPrint), done, R(RLoop));
  }

  lemma ReaderEnds(sh: Shared)
    requires !sh.locked && sh.activeReaders == 0
    ensures Leads(sh, R(RLock), sh.(readQueue := sh.readQueue - 1, canWrite := true), R(RLoop))
  {
    var done := sh.(readQueue := sh.readQueue - 1, canWrite := true);
    var held := sh.(locked := true);
    var active := held.(activeReaders := 1);
    var left := active.(readQueue := sh.readQueue - 1);
    ReaderStops(left.(locked := false));
    StepLeads(left, R(RUnlock), done, R(RLoop));
    StepLeads(active, R(RDequeue), done, R(RLoop));
    StepLeads(held, R(RStoreInc(0)), done, R(RLoop));
    StepLeads(held, R(RLoadInc), done, R(RLoop));
    StepLeads(sh, R(RLock), done, R(RLoop));
  }

  /** The event a reader takes: can_write only when no writer is queued. */
  predicate ReaderTakesWrite(sh: Shared) {
    sh.writeQueue <= 0 && sh.canWrite
  }

  predicate WriterTakesRead(sh: Shared) {
    sh.activeReaders <= 0 && sh.canRead
  }

  /** One round of reader(), alone: it takes one event and in the end sets
      can_write. Without either event it stays in start_read. */
  lemma ReaderRound(sh: Shared)
    requires sh.cnt < LIMIT && !sh.locked && sh.activeReaders == 0
    ensures if ReaderTakesWrite(sh) then Leads(sh, R(RLoop), sh, R(RLoop))
            else if sh.canRead then Leads(sh, R(RLoop), sh.(canRead := false, canWrite := true), R(RLoop))
            else Leads(sh, R(RLoop), sh.(readQueue := sh.readQueue + 1), R(RWaitRead))
  {
    var queued := sh.(readQueue := sh.readQueue + 1);
    var took := ReaderTakesWrite(sh);
    var sh' := if took then sh else if sh.canRead then sh.(canRead := false, canWrite := true) else queued;
    var pc' := if took || sh.canRead then R(RLoop) else R(RWaitRead);
    if took {
      ReaderEnds(queued.(canWrite := false));
      StepLeads(queued, R(RTryWrite), sh', pc');
    } else {
      if sh.canRead {
        ReaderEnds(queued.(canRead := false));
        StepLeads(queued, R(RWaitRead), sh', pc');
      } else {
        StayLeads(queued, R(RWaitRead));
      }
      if sh.writeQueue <= 0 {
        StepLeads(queued, R(RTryWrite), sh', pc');
      }
    }
    StepLeads(queued, R(RAskWriters), sh', pc');
    StepLeads(sh, R(REnqueue), sh', pc');
    StepLeads(sh, R(RLoop), sh', pc');
  }

  /** The thread leaves the loop once cnt is 3. */
  lemma LoopsEnd(sh: Shared)
    requires sh.cnt >= LIMIT
    ensures Leads(sh, R(RLoop), sh, R(RDone)) && Leads(sh, W(WLoop), sh, W(WDone))
    ensures !CanMove(sh, R(RDone)) && !CanMove(sh, W(WDone))
  {
    StayLeads(sh, R(RDone));
    StepLeads(sh, R(RLoop), sh, R(RDone));
    StayLeads(sh, W(WDone));
    StepLeads(sh, W(WLoop), sh, W(WDone));
  }

  /** What writer() does to the letter and the number of wraps. */
  function Written(sh: Shared): Shared {
    if sh.symbol == LOWER_Z then sh.(symbol := LOWER_A, cnt := sh.cnt + 1, writes := sh.writes + 1)
    else sh.(symbol := sh.symbol + 1, writes := sh.writes + 1)
  }

  /** What stop_write does to the events. */
  function Handed(sh: Shared): Shared {
    if sh.readQueue > 0 then sh.(canRead := true, canWrite := false) else sh.(canWrite := true)
  }

  lemma WriterSignals(sh: Shared)
    ensures if sh.cnt >= LIMIT then Leads(sh, W(WAskCnt), sh, W(WKept))
            else Leads(sh, W(WAskCnt), Handed(sh), W(WLoop))
  {
    if sh.cnt >= LIMIT {
      StayLeads(sh, W(WKept));
      StepLeads(sh, W(WLeave), sh, W(WKept));
      StepLeads(sh, W(WAskCnt), sh, W(WKept));
    } else {
      StopWriteLeads(sh);
      StepLeads(sh, W(WPrint), Handed(sh), W(WLoop));
      StepLeads(sh, W(WAskCnt), Handed(sh), W(WLoop));
    }
  }

  lemma StopWriteLeads(sh: Shared)
    ensures Leads(sh, W(WReset), Handed(sh), W(WLoop))
  {
    var reset := sh.(canWrite := false);
    StayLeads(Handed(sh), W(WLoop));
    if sh.readQueue > 0 {
      StepLeads(reset, W(WSignalRead), Handed(sh), W(WLoop));
    } else {
      StepLeads(reset, W(WSignalWrite), Handed(sh), W(WLoop));
    }
    StepLeads(reset, W(WAskQueue), Handed(sh), W(WLoop));
    StepLeads(sh, W(WReset), Handed(sh), W(WLoop));
  }

  lemma WriterWrites(sh: Shared, sh': Shared, pc': PC)
    requires Leads(Written(sh), W(WAskCnt), sh', pc')
    ensures Leads(sh, W(WAskLetter), sh', pc')
  {
    if sh.symbol == LOWER_Z {
      var counted := sh.(cnt := sh.cnt + 1);
      StepLeads(counted, W(WWrapSymbol), sh', pc');
      StepLeads(sh, W(WStoreCnt(sh.cnt)), sh', pc');
      StepLeads(sh, W(WLoadCnt), sh', pc');
    } else {
      StepLeads(sh, W(WStoreSymbol(sh.symbol)), sh', pc');
      StepLeads(sh, W(WLoadSymbol), sh', pc');
    }
    StepLeads(sh, W(WAskLetter), sh', pc');
  }

  /** One round of writer(), alone: it takes one event, writes the next letter, and
      in the end sets can_read if a reader queues, can_write otherwise; but the
      writer that counts the third wrap sets none. Without an event it stays in
      start_write. */
  lemma WriterRound(sh: Shared)
    requires sh.cnt < LIMIT
    ensures var queued := sh.(writeQueue := sh.writeQueue + 1);
            if !WriterTakesRead(sh) && !sh.canWrite then Leads(sh, W(WLoop), queued, W(WWaitWrite))
            else var taken := if WriterTakesRead(sh) then sh.(canRead := false) else sh.(canWrite := false);
                 if Written(taken).cnt >= LIMIT then Leads(sh, W(WLoop), Written(taken), W(WKept))
                 else Leads(sh, W(WLoop), Handed(Written(taken)), W(WLoop))
  {
    var queued := sh.(writeQueue := sh.writeQueue + 1);
    var took := WriterTakesRead(sh);
    var taken := if took then sh.(canRead := false) else sh.(canWrite := false);
    var kept := Written(taken).cnt >= LIMIT;
    var goes := took || sh.canWrite;
    var sh' := if !goes then queued else if kept then Written(taken) else Handed(Written(taken));
    var pc' := if !goes then W(WWaitWrite) else if kept then W(WKept) else W(WLoop);
    if goes {
      WriterSignals(Written(taken));
      WriterWrites(taken, sh', pc');
      StepLeads(taken.(writeQueue := sh.writeQueue + 1), W(WDequeue), sh', pc');
    } else {
      StayLeads(queued, W(WWaitWrite));
    }
    WriterStarts(sh, sh', pc');
  }

  lemma WriterStarts(sh: Shared, sh': Shared, pc': PC)
    requires sh.cnt < LIMIT
    requires var queued := sh.(writeQueue := sh.writeQueue + 1);
             if WriterTakesRead(sh) then Leads(queued.(canRead := false), W(WDequeue), sh', pc')
             else if sh.canWrite then Leads(queued.(canWrite := false), W(WDequeue), sh', pc')
             else Leads(queued, W(WWaitWrite), sh', pc')
    ensures Leads(sh, W(WLoop), sh', pc')
  {
    var queued := sh.(writeQueue := sh.writeQueue + 1);
    if WriterTakesRead(sh) {
      StepLeads(queued, W(WTryRead), sh', pc');
    } else {
      if sh.canWrite {
        StepLeads(queued, W(WWaitWrite), sh', pc');
      }
      if sh.activeReaders <= 0 {
        StepLeads(queued, W(WTryRead), sh', pc');
      }
    }
    StepLeads(queued, W(WAskReaders), sh', pc');
    StepLeads(sh, W(WEnqueue), sh', pc');
    StepLeads(sh, W(WLoop), sh', pc');
  }
}
