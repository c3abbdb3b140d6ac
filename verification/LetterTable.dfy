/** The letter reservation server (lab_sockets/lab_03/mt/server.c): any number of
    client threads, each serving an arbitrary stream of requests. Every access
    to the table and every semop call is one step. Letter numbers are in range. */
module LetterTable {
  import opened Semaphores
  import opened Tally
  import opened RwLock

  const SIZE := 20

  datatype Status = OK | AlreadyReserved

  /** What recv delivers to an idle thread. */
  datatype Request = Read | Write(index: nat) | Unknown

  /** A thread's position with its local variables. */
  datatype PC =
    | Idle
    | RStart | RCopy(buf: seq<char>) | RSend(buf: seq<char>) | RStop
    | WStart(index: nat) | WTest(index: nat) | WBlank(index: nat) | WRetest(index: nat)
    | WScan(i: nat, index: nat, status: Status, full: bool) | WSend(index: nat, status: Status, full: bool)
    | WStop

  datatype Turn = Turn(thread: nat, request: Request)

  /** One reply to a write request. */
  datatype Reply = Reply(index: nat, status: Status, full: bool)

  /** The semaphores, the table, the threads and, as history, the letters set to
      blank, the replies to write requests and the copies sent to readers, in order. */
  datatype State = State(
    sems: seq<int>, arr: seq<char>, pcs: seq<PC>, grants: seq<nat>, replies: seq<Reply>,
    copies: seq<seq<char>>)

  predicate Reads(pc: PC) { pc.RCopy? || pc.RSend? || pc.RStop? }

  predicate Writes(pc: PC) {
    pc.WTest? || pc.WBlank? || pc.WRetest? || pc.WScan? || pc.WSend? || pc.WStop?
  }

  function Reading(pc: PC): nat { Bit(Reads(pc)) }

  function Writing(pc: PC): nat { Bit(Writes(pc)) }

  /** The semop call a thread stands at, if any. */
  function CallAt(pc: PC): seq<SemBuf> {
    match pc
    case RStart => Ops(Letters, StartRead)
    case RStop => Ops(Letters, StopRead)
    case WStart(_) => Ops(Letters, StartWrite)
    case WStop => Ops(Letters, StopWrite)
    case _ => []
  }

  predicate InRange(pc: PC) {
    match pc
    case RCopy(buf) => |buf| <= SIZE
    case WStart(index) => index < SIZE
    case WTest(index) => index < SIZE
    case WBlank(index) => index < SIZE
    case WRetest(index) => index < SIZE
    case WScan(i, index, _, full) => i <= SIZE
    case _ => true
  }

  predicate WellFormed(s: State) {
    |s.sems| == 5 && |s.arr| == SIZE && forall t :: 0 <= t < |s.pcs| ==> InRange(s.pcs[t])
  }

  predicate Acceptable(turn: Turn, threads: nat) {
    turn.thread < threads && (turn.request.Write? ==> turn.request.index < SIZE)
  }

  predicate Enabled(s: State, t: nat)
    requires WellFormed(s) && t < |s.pcs|
  {
    Semop(s.sems, CallAt(s.pcs[t])).Done?
  }

  function NextPC(s: State, pc: PC, request: Request): PC
    requires |s.arr| == SIZE && InRange(pc)
  {
    match pc
    case Idle => (match request case Read => RStart case Write(index) => WStart(index) case Unknown => Idle)
    case RStart => RCopy([])
    case RCopy(buf) => if |buf| < SIZE then RCopy(buf + [s.arr[|buf|]]) else RSend(buf)
    case RSend(_) => RStop
    case RStop => Idle
    case WStart(index) => WTest(index)
    case WTest(index) => if s.arr[index] != ' ' then WBlank(index) else WRetest(index)
    case WBlank(index) => WScan(0, index, OK, true)
    case WRetest(index) => WScan(0, index, AlreadyReserved, true)
    case WScan(i, index, status, full) =>
      if full && i < SIZE then WScan(i + 1, index, status, s.arr[i] == ' ') else WSend(index, status, full)
    case WSend(_, _, _) => WStop
    case WStop => Idle
  }

  function Next(s: State, turn: Turn): (r: State)
    requires WellFormed(s) && Acceptable(turn, |s.pcs|) && Enabled(s, turn.thread)
    ensures WellFormed(r) && |r.pcs| == |s.pcs|
  {
    var pc := s.pcs[turn.thread];
    var s1 := s.(pcs := s.pcs[turn.thread := NextPC(s, pc, turn.request)]);
    match pc
    case WBlank(index) => s1.(arr := s.arr[index := ' '], grants := s.grants + [index])
    case WSend(index, status, full) => s1.(replies := s.replies + [Reply(index, status, full)])
    case RSend(buf) => s1.(copies := s.copies + [buf])
    case _ => s1.(sems := Semop(s.sems, CallAt(pc)).sems)
  }

  function AllLetters(): (r: seq<char>)
    ensures |r| == SIZE && forall i :: 0 <= i < SIZE ==> r[i] != ' '
  {
    seq(SIZE, i requires 0 <= i < SIZE => ('a' as int + i) as char)
  }

  predicate Initial(s: State) {
    && s.sems == [0, 0, 0, 1, 0] && s.arr == AllLetters()
    && (forall t :: 0 <= t < |s.pcs| ==> s.pcs[t] == Idle)
    && s.grants == [] && s.replies == [] && s.copies == []
  }

  function Exec(s: State, turns: seq<Turn>): (r: State)
    requires WellFormed(s) && forall k :: 0 <= k < |turns| ==> Acceptable(turns[k], |s.pcs|)
    ensures WellFormed(r) && |r.pcs| == |s.pcs|
    decreases |turns|
  {
    if turns == [] then s
    else
      assert Acceptable(turns[0], |s.pcs|);
      Exec(if Enabled(s, turns[0].thread) then Next(s, turns[0]) else s, turns[1..])
  }

  // ---- The global invariant ----

  function Blank(c: char): nat { Bit(c == ' ') }

  /** The thread owes an OK. */
  predicate Owes(pc: PC) {
    (pc.WScan? || pc.WSend?) && pc.status == OK
  }

  /** A granted letter whose OK has not been sent yet. */
  function Owing(pc: PC): nat {
    Bit(Owes(pc))
  }

  function Oks(replies: seq<Reply>): nat {
    if replies == [] then 0 else Oks(replies[..|replies| - 1]) + Bit(replies[|replies| - 1].status == OK)
  }

  predicate AllBlank(arr: seq<char>, n: nat)
    requires n <= |arr|
  {
    forall k :: 0 <= k < n ==> arr[k] == ' '
  }

  /** A cell is blank exactly when its letter has been granted, a letter is
      granted once, and the other cells hold their letters. */
  predicate Table(s: State)
    requires |s.arr| == SIZE
  {
    && (forall i :: 0 <= i < SIZE ==> s.arr[i] == if i in s.grants then ' ' else AllLetters()[i])
    && (forall k :: 0 <= k < |s.grants| ==> s.grants[k] < SIZE)
    && (forall k, l :: 0 <= k < l < |s.grants| ==> s.grants[k] != s.grants[l])
    && Total(s.arr, Blank) == |s.grants| == Oks(s.replies) + Total(s.pcs, Owing)
  }

  /** The replies with OK carry different letters, all of them granted. */
  predicate OksDiffer(replies: seq<Reply>, grants: seq<nat>) {
    && (forall k :: 0 <= k < |replies| && replies[k].status == OK ==> replies[k].index in grants)
    && (forall k, l :: 0 <= k < l < |replies| && replies[k].status == OK && replies[l].status == OK ==>
                         replies[k].index != replies[l].index)
  }

  /** The letter of an OK that is owed has been granted and been in no OK reply. */
  predicate NewlyGranted(pc: PC, replies: seq<Reply>, grants: seq<nat>) {
    Owes(pc) ==>
      && pc.index in grants
      && forall k :: 0 <= k < |replies| && replies[k].status == OK ==> replies[k].index != pc.index
  }

  predicate Ledger(s: State) {
    && OksDiffer(s.replies, s.grants)
    && forall t :: 0 <= t < |s.pcs| ==> NewlyGranted(s.pcs[t], s.replies, s.grants)
  }

  /** full was computed true exactly if this reply or an earlier one took the
      last letter. */
  predicate FullIsRight(replies: seq<Reply>) {
    forall k :: 0 <= k < |replies| ==> (replies[k].full <==> Oks(replies[..k + 1]) == SIZE)
  }

  predicate Local(s: State, pc: PC)
    requires |s.arr| == SIZE
  {
    match pc
    case RCopy(buf) => |buf| <= SIZE && buf == s.arr[..|buf|]
    case RSend(buf) => buf == s.arr
    case WBlank(index) => index < SIZE && s.arr[index] != ' '
    case WRetest(index) => index < SIZE && s.arr[index] == ' '
    case WScan(i, index, _, full) => i <= SIZE && index < SIZE && s.arr[index] == ' ' && (full <==> AllBlank(s.arr, i))
    case WSend(index, _, full) => index < SIZE && s.arr[index] == ' ' && (full <==> AllBlank(s.arr, SIZE))
    case _ => true
  }

  predicate Inv(s: State) {
    && WellFormed(s)
    && LockInv(Letters, s.sems, s.pcs, Reading, Writing)
    && Table(s) && Ledger(s) && FullIsRight(s.replies)
    && forall t :: 0 <= t < |s.pcs| ==> Local(s, s.pcs[t])
  }

  lemma InitialInv(s: State)
    requires Initial(s)
    ensures Inv(s)
  {
    InitialLock(s.sems, s.pcs);
    InitialTable(s);
    NothingPending(s);
  }

  lemma NothingPending(s: State)
    requires |s.arr| == SIZE && s.grants == [] && s.replies == []
    requires forall t :: 0 <= t < |s.pcs| ==> s.pcs[t] == Idle
    ensures Ledger(s) && FullIsRight(s.replies) && forall t :: 0 <= t < |s.pcs| ==> Local(s, s.pcs[t])
  {}

  lemma InitialLock(sems: seq<int>, pcs: seq<PC>)
    requires sems == [0, 0, 0, 1, 0] && forall t :: 0 <= t < |pcs| ==> pcs[t] == Idle
    ensures LockInv(Letters, sems, pcs, Reading, Writing)
  {
    TotalZero(pcs, Reading);
    TotalZero(pcs, Writing);
  }

  lemma InitialTable(s: State)
    requires s.arr == AllLetters() && s.grants == [] && s.replies == []
    requires forall t :: 0 <= t < |s.pcs| ==> s.pcs[t] == Idle
    ensures Table(s)
  {
    TotalZero(s.pcs, Owing);
    TotalZero(s.arr, Blank);
  }

  lemma ReadCallKept(s: State, turn: Turn)
    requires WellFormed(s) && LockInv(Letters, s.sems, s.pcs, Reading, Writing)
    requires Acceptable(turn, |s.pcs|) && Enabled(s, turn.thread)
    requires s.pcs[turn.thread].RStart? || s.pcs[turn.thread].RStop?
    ensures LockInv(Letters, Next(s, turn).sems, Next(s, turn).pcs, Reading, Writing)
  {
    var t := turn.thread;
    var call := if s.pcs[t].RStart? then StartRead else StopRead;
    CallKeepsLock(Letters, s.sems, s.pcs, t, NextPC(s, s.pcs[t], turn.request), Reading, Writing, call);
  }

  lemma WriteCallKept(s: State, turn: Turn)
    requires WellFormed(s) && LockInv(Letters, s.sems, s.pcs, Reading, Writing)
    requires Acceptable(turn, |s.pcs|) && Enabled(s, turn.thread)
    requires s.pcs[turn.thread].WStart? || s.pcs[turn.thread].WStop?
    ensures LockInv(Letters, Next(s, turn).sems, Next(s, turn).pcs, Reading, Writing)
  {
    var t := turn.thread;
    var call := if s.pcs[t].WStart? then StartWrite else StopWrite;
    CallKeepsLock(Letters, s.sems, s.pcs, t, NextPC(s, s.pcs[t], turn.request), Reading, Writing, call);
  }

  lemma NoCallKept(s: State, turn: Turn)
    requires WellFormed(s) && LockInv(Letters, s.sems, s.pcs, Reading, Writing)
    requires Acceptable(turn, |s.pcs|) && Enabled(s, turn.thread)
    requires var pc := s.pcs[turn.thread]; !(pc.RStart? || pc.RStop? || pc.WStart? || pc.WStop?)
    ensures LockInv(Letters, Next(s, turn).sems, Next(s, turn).pcs, Reading, Writing)
  {
    var t := turn.thread;
    MoveKeepsLock(Letters, s.sems, s.pcs, t, NextPC(s, s.pcs[t], turn.request), Reading, Writing);
  }

  lemma LockKept(s: State, turn: Turn)
    requires WellFormed(s) && LockInv(Letters, s.sems, s.pcs, Reading, Writing)
    requires Acceptable(turn, |s.pcs|) && Enabled(s, turn.thread)
    ensures LockInv(Letters, Next(s, turn).sems, Next(s, turn).pcs, Reading, Writing)
  {
    var pc := s.pcs[turn.thread];
    if pc.RStart? || pc.RStop? {
      ReadCallKept(s, turn);
    } else if pc.WStart? || pc.WStop? {
      WriteCallKept(s, turn);
    } else {
      NoCallKept(s, turn);
    }
  }

  /** Blanking a cell grants a letter that nobody has been granted. */
  lemma BlankKeepsTable(s: State, turn: Turn)
    requires Inv(s) && Acceptable(turn, |s.pcs|) && Enabled(s, turn.thread) && s.pcs[turn.thread].WBlank?
    ensures Table(Next(s, turn))
  {
    var pc := s.pcs[turn.thread];
    assert Local(s, pc);
    TotalUpdate(s.arr, pc.index, ' ', Blank);
    TotalUpdate(s.pcs, turn.thread, WScan(0, pc.index, OK, true), Owing);
  }

  /** An OK owed becomes an OK sent. */
  lemma OwingMove(s: State, turn: Turn)
    requires WellFormed(s) && Acceptable(turn, |s.pcs|) && Enabled(s, turn.thread)
    requires !s.pcs[turn.thread].WBlank?
    ensures var s' := Next(s, turn);
            Oks(s'.replies) + Owing(s'.pcs[turn.thread]) == Oks(s.replies) + Owing(s.pcs[turn.thread])
  {
    if s.pcs[turn.thread].WSend? {
      assert Next(s, turn).replies[..|s.replies|] == s.replies;
    }
  }

  lemma TableKept(s: State, turn: Turn)
    requires Inv(s) && Acceptable(turn, |s.pcs|) && Enabled(s, turn.thread)
    ensures Table(Next(s, turn))
  {
    if s.pcs[turn.thread].WBlank? {
      BlankKeepsTable(s, turn);
    } else {
      var s' := Next(s, turn);
      TotalUpdate(s.pcs, turn.thread, s'.pcs[turn.thread], Owing);
      OwingMove(s, turn);
      assert s'.arr == s.arr && s'.grants == s.grants;
    }
  }

  /** A step changes what is owed and sent only at the grant and at the reply. */
  lemma LedgerMove(s: State, turn: Turn)
    requires WellFormed(s) && Acceptable(turn, |s.pcs|) && Enabled(s, turn.thread)
    ensures var pc := s.pcs[turn.thread]; var pc' := NextPC(s, pc, turn.request); var s' := Next(s, turn);
            && s'.pcs == s.pcs[turn.thread := pc']
            && s'.grants == (if pc.WBlank? then s.grants + [pc.index] else s.grants)
            && s'.replies
               == (if pc.WSend? then s.replies + [Reply(pc.index, pc.status, pc.full)] else s.replies)
            && (Owes(pc') ==> (pc.WBlank? || Owes(pc)) && pc'.index == pc.index)
            && (pc.WSend? ==> !Owes(pc'))
  {}

  /** A letter that is granted has been in no OK reply before. */
  lemma GrantKeepsLedger(s: State, t: nat)
    requires Inv(s) && t < |s.pcs| && s.pcs[t].WBlank?
    ensures var grants := s.grants + [s.pcs[t].index];
            && OksDiffer(s.replies, grants)
            && NewlyGranted(WScan(0, s.pcs[t].index, OK, true), s.replies, grants)
            && forall u :: 0 <= u < |s.pcs| && u != t ==> NewlyGranted(s.pcs[u], s.replies, grants)
  {
    assert Local(s, s.pcs[t]) && s.pcs[t].index !in s.grants;
  }

  /** The letter of a reply has been in no OK reply before, and nobody else owes
      an OK. */
  lemma ReplyKeepsLedger(s: State, t: nat)
    requires Inv(s) && t < |s.pcs| && s.pcs[t].WSend?
    ensures var pc := s.pcs[t];
            var replies := s.replies + [Reply(pc.index, pc.status, pc.full)];
            && OksDiffer(replies, s.grants)
            && forall u :: 0 <= u < |s.pcs| && u != t ==> NewlyGranted(s.pcs[u], replies, s.grants)
  {
    WriterAlone(Letters, s.sems, s.pcs, t, Reading, Writing);
    assert NewlyGranted(s.pcs[t], s.replies, s.grants);
    forall u | 0 <= u < |s.pcs| && u != t
      ensures !Owes(s.pcs[u])
    {
      assert Writing(s.pcs[u]) == 0;
    }
  }

  lemma LedgerKept(s: State, turn: Turn)
    requires Inv(s) && Acceptable(turn, |s.pcs|) && Enabled(s, turn.thread)
    ensures Ledger(Next(s, turn))
  {
    var t := turn.thread;
    LedgerMove(s, turn);
    assert NewlyGranted(s.pcs[t], s.replies, s.grants);
    if s.pcs[t].WBlank? {
      GrantKeepsLedger(s, t);
    } else if s.pcs[t].WSend? {
      ReplyKeepsLedger(s, t);
    }
  }

  lemma OwingIsWriting(s: State, t: nat)
    requires Inv(s) && t < |s.pcs| && Writes(s.pcs[t])
    ensures Total(s.pcs, Owing) == Owing(s.pcs[t])
  {
    WriterAlone(Letters, s.sems, s.pcs, t, Reading, Writing);
    TotalUpdate(s.pcs, t, Idle, Owing);
    forall u | 0 <= u < |s.pcs| && u != t
      ensures Owing(s.pcs[u]) == 0
    {
      assert Writing(s.pcs[u]) == 0;
    }
    TotalZero(s.pcs[t := Idle], Owing);
  }

  /** The table is full when as many cells are blank as there are cells. */
  lemma {:induction false} FullByCount(arr: seq<char>)
    ensures Total(arr, Blank) <= |arr|
    ensures Total(arr, Blank) == |arr| <==> AllBlank(arr, |arr|)
  {
    if arr != [] {
      FullByCount(arr[1..]);
      assert AllBlank(arr, |arr|) <==> arr[0] == ' ' && AllBlank(arr[1..], |arr| - 1) by {
        assert arr == [arr[0]] + arr[1..];
      }
    }
  }

  lemma FullKept(s: State, turn: Turn)
    requires Inv(s) && Acceptable(turn, |s.pcs|) && Enabled(s, turn.thread)
    ensures FullIsRight(Next(s, turn).replies)
  {
    var pc := s.pcs[turn.thread];
    if pc.WSend? {
      var replies := Next(s, turn).replies;
      var n := |s.replies|;
      assert Local(s, pc);
      OwingIsWriting(s, turn.thread);
      FullByCount(s.arr);
      assert replies[..n] == s.replies && replies[..n + 1] == replies;
      forall k | 0 <= k < |replies|
        ensures replies[k].full <==> Oks(replies[..k + 1]) == SIZE
      {
        if k < n {
          assert replies[..k + 1] == s.replies[..k + 1];
        }
      }
    }
  }

  lemma OwnLocal(s: State, turn: Turn)
    requires WellFormed(s) && Acceptable(turn, |s.pcs|) && Enabled(s, turn.thread)
    requires Local(s, s.pcs[turn.thread])
    ensures Local(Next(s, turn), Next(s, turn).pcs[turn.thread])
  {
    var pc := s.pcs[turn.thread];
    assert pc.WScan? && pc.full && pc.i < SIZE ==> (AllBlank(s.arr, pc.i + 1) <==> s.arr[pc.i] == ' ');
  }

  /** The table changes only while nobody else is inside. */
  lemma OtherLocal(s: State, turn: Turn, u: nat)
    requires Inv(s) && Acceptable(turn, |s.pcs|) && Enabled(s, turn.thread) && u < |s.pcs| && u != turn.thread
    ensures Local(Next(s, turn), s.pcs[u])
  {
    assert Local(s, s.pcs[u]);
    if s.pcs[turn.thread].WBlank? {
      WriterAlone(Letters, s.sems, s.pcs, turn.thread, Reading, Writing);
      assert Reading(s.pcs[u]) == 0 && Writing(s.pcs[u]) == 0;
    }
  }

  lemma StepKeepsInv(s: State, turn: Turn)
    requires Inv(s) && Acceptable(turn, |s.pcs|) && Enabled(s, turn.thread)
    ensures Inv(Next(s, turn))
  {
    LockKept(s, turn);
    TableKept(s, turn);
    LedgerKept(s, turn);
    FullKept(s, turn);
    forall u | 0 <= u < |s.pcs|
      ensures Local(Next(s, turn), Next(s, turn).pcs[u])
    {
      if u == turn.thread {
        OwnLocal(s, turn);
      } else {
        OtherLocal(s, turn, u);
      }
    }
  }

  lemma {:induction false} ExecKeepsInv(s: State, turns: seq<Turn>)
    requires Inv(s) && forall k :: 0 <= k < |turns| ==> Acceptable(turns[k], |s.pcs|)
    ensures Inv(Exec(s, turns))
    decreases |turns|
  {
    if turns != [] {
      if Enabled(s, turns[0].thread) {
        StepKeepsInv(s, turns[0]);
        ExecKeepsInv(Next(s, turns[0]), turns[1..]);
      } else {
        ExecKeepsInv(s, turns[1..]);
      }
    }
  }

  // ---- What the invariant gives for every run ----

  predicate Excludes(r: State) {
    forall t, u :: 0 <= t < |r.pcs| && 0 <= u < |r.pcs| && t != u && Writes(r.pcs[t]) ==>
                     !Reads(r.pcs[u]) && !Writes(r.pcs[u])
  }

  lemma LockExcludes(r: State)
    requires LockInv(Letters, r.sems, r.pcs, Reading, Writing)
    ensures Excludes(r)
  {
    forall t, u | 0 <= t < |r.pcs| && 0 <= u < |r.pcs| && t != u && Writes(r.pcs[t])
      ensures !Reads(r.pcs[u]) && !Writes(r.pcs[u])
    {
      WriterAlone(Letters, r.sems, r.pcs, t, Reading, Writing);
      assert Reading(r.pcs[u]) == 0 && Writing(r.pcs[u]) == 0;
    }
  }

  /** In every run READER and SHADOW_WRITER count the threads inside, WRITER is
      free exactly without a writer, both queue semaphores are zero, and a
      writer is alone. */
  lemma WritersExclude(s: State, turns: seq<Turn>)
    requires Initial(s) && forall k :: 0 <= k < |turns| ==> Acceptable(turns[k], |s.pcs|)
    ensures var r := Exec(s, turns);
            && r.sems == [0, 0, Total(r.pcs, Reading), 1 - Total(r.pcs, Writing), Total(r.pcs, Writing)]
            && Excludes(r)
  {
    InitialInv(s);
    ExecKeepsInv(s, turns);
    LockExcludes(Exec(s, turns));
  }

  /** When the lock lets a thread at this position go on. */
  predicate Admits(pcs: seq<PC>, pc: PC) {
    match pc
    case RStart => Total(pcs, Writing) == 0
    case WStart(_) => Total(pcs, Writing) == 0 && Total(pcs, Reading) == 0
    case _ => true
  }

  lemma LockAdmits(r: State, t: nat)
    requires WellFormed(r) && LockInv(Letters, r.sems, r.pcs, Reading, Writing) && t < |r.pcs|
    ensures Enabled(r, t) <==> Admits(r.pcs, r.pcs[t])
  {
    match r.pcs[t] {
      case RStart => CallKeepsLock(Letters, r.sems, r.pcs, t, RCopy([]), Reading, Writing, StartRead);
      case RStop => CallKeepsLock(Letters, r.sems, r.pcs, t, Idle, Reading, Writing, StopRead);
      case WStart(i) => CallKeepsLock(Letters, r.sems, r.pcs, t, WTest(i), Reading, Writing, StartWrite);
      case WStop => CallKeepsLock(Letters, r.sems, r.pcs, t, Idle, Reading, Writing, StopWrite);
      case _ =>
    }
  }

  /** A start call goes through exactly when the lock admits the caller, who is
      then inside; and a thread inside is never held up. */
  lemma StartsWhenAdmitted(s: State, turns: seq<Turn>, turn: Turn)
    requires Initial(s) && forall k :: 0 <= k < |turns| ==> Acceptable(turns[k], |s.pcs|)
    requires Acceptable(turn, |s.pcs|)
    ensures var r := Exec(s, turns); var pc := r.pcs[turn.thread];
            && (Enabled(r, turn.thread) <==> Admits(r.pcs, pc))
            && (Enabled(r, turn.thread) && pc.RStart? ==> Reads(Next(r, turn).pcs[turn.thread]))
            && (Enabled(r, turn.thread) && pc.WStart? ==> Writes(Next(r, turn).pcs[turn.thread]))
  {
    InitialInv(s);
    ExecKeepsInv(s, turns);
    LockAdmits(Exec(s, turns), turn.thread);
  }

  /** No two OK replies carry the same letter, and a letter whose OK is still owed
      has been in none; the OK replies sent or owed are as many as the blank
      cells; full is true exactly from the reply that takes
      the last letter on; and every cell is either granted or untouched. */
  ghost predicate GrantedOnce(r: State) {
    && (forall k, l :: 0 <= k < l < |r.replies| && r.replies[k].status == OK && r.replies[l].status == OK ==>
                         r.replies[k].index != r.replies[l].index)
    && (forall t, k :: 0 <= t < |r.pcs| && Owes(r.pcs[t]) && 0 <= k < |r.replies| && r.replies[k].status == OK
                       ==> r.replies[k].index != r.pcs[t].index)
    && (forall k :: 0 <= k < |r.replies| && r.replies[k].status == OK ==> r.replies[k].index in r.grants)
    && (forall t :: 0 <= t < |r.pcs| && Owes(r.pcs[t]) ==> r.pcs[t].index in r.grants)
    && (forall k, l :: 0 <= k < l < |r.grants| ==> r.grants[k] != r.grants[l])
    && |r.arr| == 20
    && (forall i :: 0 <= i < 20 ==> r.arr[i] == if i in r.grants then ' ' else ('a' as int + i) as char)
    && Total(r.arr, Blank) == |r.grants| == Oks(r.replies) + Total(r.pcs, Owing)
    && FullIsRight(r.replies)
  }

  lemma InvGrantsOnce(r: State)
    requires Inv(r)
    ensures GrantedOnce(r)
  {}

  lemma LettersGrantedOnce(s: State, turns: seq<Turn>)
    requires Initial(s) && forall k :: 0 <= k < |turns| ==> Acceptable(turns[k], |s.pcs|)
    ensures GrantedOnce(Exec(s, turns))
  {
    InitialInv(s);
    ExecKeepsInv(s, turns);
    InvGrantsOnce(Exec(s, turns));
  }

  /** While a thread copies the table nobody changes it, and what it sends is
      the table as it stands from the first copied cell to the last, which its
      reply then carries. */
  lemma CopiesAreSnapshots(s: State, turns: seq<Turn>, t: nat, turn: Turn)
    requires Initial(s) && forall k :: 0 <= k < |turns| ==> Acceptable(turns[k], |s.pcs|)
    requires t < |s.pcs| && Reads(Exec(s, turns).pcs[t])
    requires Acceptable(turn, |s.pcs|) && Enabled(Exec(s, turns), turn.thread)
    ensures var r := Exec(s, turns);
            && Next(r, turn).arr == r.arr
            && (r.pcs[t].RSend? ==> r.pcs[t].buf == r.arr)
            && (r.pcs[t].RSend? && turn.thread == t ==> Next(r, turn).copies == r.copies + [r.arr])
            && (r.pcs[t].RCopy? ==> r.pcs[t].buf == r.arr[..|r.pcs[t].buf|])
  {
    InitialInv(s);
    ExecKeepsInv(s, turns);
    CopyStands(Exec(s, turns), t, turn);
  }

  lemma CopyStands(r: State, t: nat, turn: Turn)
    requires Inv(r) && t < |r.pcs| && Reads(r.pcs[t]) && Acceptable(turn, |r.pcs|) && Enabled(r, turn.thread)
    ensures Next(r, turn).arr == r.arr
    ensures r.pcs[t].RSend? ==> r.pcs[t].buf == r.arr
    ensures r.pcs[t].RSend? && turn.thread == t ==> Next(r, turn).copies == r.copies + [r.arr]
    ensures r.pcs[t].RCopy? ==> r.pcs[t].buf == r.arr[..|r.pcs[t].buf|]
  {
    assert Local(r, r.pcs[t]);
    LockExcludes(r);
  }

  // ---- The program ----

  class Server {
    var sems: seq<int>
    const arr: array<char>
    var pcs: seq<PC>
    ghost var grants: seq<nat>
    ghost var replies: seq<Reply>
    ghost var copies: seq<seq<char>>

    ghost function View(): State
      reads this, arr
    {
      State(sems, arr[..], pcs, grants, replies, copies)
    }

    ghost predicate Valid()
      reads this, arr
    {
      Inv(View())
    }

    constructor (clients: nat)
      ensures Initial(View()) && Valid() && |pcs| == clients && fresh(arr)
    {
      sems := [0, 0, 0, 1, 0];
      arr := new char[SIZE](i => if 0 <= i < SIZE then ('a' as int + i) as char else ' ');
      pcs, grants, replies, copies := seq(clients, _ => Idle), [], [], [];
      new;
      assert arr[..] == AllLetters();
      InitialInv(View());
    }

    /** One step of process_client in thread turn.thread: recv when it is idle,
        otherwise the next statement of the request being served. */
    method ProcessClient(turn: Turn)
      requires WellFormed(View()) && Acceptable(turn, |pcs|) && Enabled(View(), turn.thread)
      modifies this, arr
      ensures View() == Next(old(View()), turn)
    {
      var pc := pcs[turn.thread];
      var next := Idle;
      match pc {
        case Idle =>
          match turn.request {
            case Read => next := RStart;
            case Write(index) => next := WStart(index);
            case Unknown =>
          }
        case RStart => Call(pc); next := RCopy([]);
        case RCopy(buf) => next := if |buf| < SIZE then RCopy(buf + [arr[|buf|]]) else RSend(buf);
        case RSend(buf) => copies := copies + [buf]; next := RStop;
        case RStop => Call(pc);
        case WStart(index) => Call(pc); next := WTest(index);
        case WTest(index) => next := if arr[index] != ' ' then WBlank(index) else WRetest(index);
        case WBlank(index) =>
          arr[index] := ' ';
          grants := grants + [index];
          next := WScan(0, index, OK, true);
        case WRetest(index) => next := WScan(0, index, AlreadyReserved, true);
        case WScan(i, index, status, full) =>
          next := if full && i < SIZE then WScan(i + 1, index, status, arr[i] == ' ') else WSend(index, status, full);
        case WSend(index, status, full) => replies := replies + [Reply(index, status, full)]; next := WStop;
        case WStop => Call(pc);
      }
      pcs := pcs[turn.thread := next];
    }

    method Call(pc: PC)
      requires |sems| == 5 && Semop(sems, CallAt(pc)).Done?
      modifies `sems
      ensures sems == Semop(old(sems), CallAt(pc)).sems
    {
      sems := Semop(sems, CallAt(pc)).sems;
    }

    /** A turn: one step, or none while the thread has to wait. */
    method Take(turn: Turn)
      requires Valid() && Acceptable(turn, |pcs|)
      modifies this, arr
      ensures Valid() && |pcs| == old(|pcs|)
      ensures View() == if old(Enabled(View(), turn.thread)) then Next(old(View()), turn) else old(View())
    {
      if Semop(sems, CallAt(pcs[turn.thread])).Done? {
        StepKeepsInv(View(), turn);
        ProcessClient(turn);
      }
    }

    method Run(turns: seq<Turn>)
      requires Valid() && forall k :: 0 <= k < |turns| ==> Acceptable(turns[k], |pcs|)
      modifies this, arr
      ensures Valid() && |pcs| == old(|pcs|)
      ensures View() == Exec(old(View()), turns)
    {
      for k := 0 to |turns|
        invariant Valid() && |pcs| == old(|pcs|)
        invariant Exec(View(), turns[k..]) == Exec(old(View()), turns)
      {
        assert turns[k..][1..] == turns[k + 1..];
        Take(turns[k]);
      }
    }
  }
}
