/** What the clients of the letter reservation server get for what they ask
    (lab_sockets/lab_03/mt/server.c), watched from outside: the requests that a
    thread takes, the answers it sends and the cells it makes blank. */
module LetterHistory {
  import opened LetterTable
  import opened RwLock
  import opened Tally

  function After(s: State, turn: Turn): (r: State)
    requires WellFormed(s) && Acceptable(turn, |s.pcs|)
    ensures WellFormed(r) && |r.pcs| == |s.pcs|
  {
    if Enabled(s, turn.thread) then Next(s, turn) else s
  }

  predicate AllAcceptable(turns: seq<Turn>, threads: nat) {
    forall k :: 0 <= k < |turns| ==> Acceptable(turns[k], threads)
  }

  // ---- What a run shows of one thread ----

  /** Requests taken, requests answered, cells made blank, and letters answered
      with OK, each in order. */
  datatype Seen = Seen(taken: seq<Request>, answered: seq<Request>, blanked: seq<nat>, granted: seq<nat>)

  /** One turn: a request is taken by an idle thread; a new reply to a writer or a
      new copy for a reader is an answer; and a cell is made blank that was not. */
  function SeenAt(s: State, turn: Turn): Seen
    requires WellFormed(s) && Acceptable(turn, |s.pcs|)
  {
    var s' := After(s, turn);
    Seen(
      if s.pcs[turn.thread] == Idle && turn.request != Unknown then [turn.request] else [],
      if |s'.replies| > |s.replies| then [Write(s'.replies[|s.replies|].index)]
      else if |s'.copies| > |s.copies| then [Read] else [],
      Blanked(s.arr, s'.arr, 0),
      if |s'.replies| > |s.replies| && s'.replies[|s.replies|].status == OK
      then [s'.replies[|s.replies|].index] else [])
  }

  function Blanked(arr: seq<char>, arr': seq<char>, i: nat): seq<nat>
    requires i <= |arr| == |arr'|
    decreases |arr| - i
  {
    if i == |arr| then []
    else (if arr[i] != ' ' && arr'[i] == ' ' then [i] else []) + Blanked(arr, arr', i + 1)
  }

  /** What the turns of thread t show in a run. */
  function Watch(s: State, turns: seq<Turn>, t: nat): Seen
    requires WellFormed(s) && AllAcceptable(turns, |s.pcs|) && t < |s.pcs|
    decreases |turns|
  {
    if turns == [] then Seen([], [], [], [])
    else
      assert Acceptable(turns[0], |s.pcs|);
      var later := Watch(After(s, turns[0]), turns[1..], t);
      if turns[0].thread != t then later else Followed(SeenAt(s, turns[0]), later)
  }

  function Followed(now: Seen, later: Seen): Seen {
    Seen(now.taken + later.taken, now.answered + later.answered, now.blanked + later.blanked,
         now.granted + later.granted)
  }

  // ---- Every request is answered, and with its own letter ----

  /** The request that a thread has taken and not answered yet. */
  function InHand(pc: PC): seq<Request> {
    match pc
    case RStart => [Read]
    case RCopy(_) => [Read]
    case RSend(_) => [Read]
    case WStart(index) => [Write(index)]
    case WTest(index) => [Write(index)]
    case WBlank(index) => [Write(index)]
    case WRetest(index) => [Write(index)]
    case WScan(_, index, _, _) => [Write(index)]
    case WSend(index, _, _) => [Write(index)]
    case _ => []
  }

  /** The letter that a thread has made blank and not answered yet. */
  function Owed(pc: PC): seq<nat> {
    if Owes(pc) then [pc.index] else []
  }

  /** Nothing is lost between two states of a thread. */
  predicate Balanced(pc: PC, seen: Seen, pc': PC) {
    && InHand(pc) + seen.taken == seen.answered + InHand(pc')
    && Owed(pc) + seen.blanked == seen.granted + Owed(pc')
  }

  lemma {:induction false} NothingBlanked(arr: seq<char>, i: nat)
    requires i <= |arr|
    ensures Blanked(arr, arr, i) == []
    decreases |arr| - i
  {
    if i < |arr| {
      NothingBlanked(arr, i + 1);
    }
  }

  lemma {:induction false} OneBlanked(arr: seq<char>, index: nat, i: nat)
    requires i <= |arr| && index < |arr| && arr[index] != ' '
    ensures Blanked(arr, arr[index := ' '], i) == if i <= index then [index] else []
    decreases |arr| - i
  {
    if i < |arr| {
      OneBlanked(arr, index, i + 1);
    }
  }

  lemma BlankBalanced(s: State, turn: Turn)
    requires WellFormed(s) && Acceptable(turn, |s.pcs|) && Enabled(s, turn.thread)
    requires s.pcs[turn.thread].WBlank? && s.arr[s.pcs[turn.thread].index] != ' '
    ensures Balanced(s.pcs[turn.thread], SeenAt(s, turn), Next(s, turn).pcs[turn.thread])
  {
    OneBlanked(s.arr, s.pcs[turn.thread].index, 0);
  }

  lemma SendBalanced(s: State, turn: Turn)
    requires WellFormed(s) && Acceptable(turn, |s.pcs|) && Enabled(s, turn.thread)
    requires s.pcs[turn.thread].WSend? || s.pcs[turn.thread].RSend?
    ensures Balanced(s.pcs[turn.thread], SeenAt(s, turn), Next(s, turn).pcs[turn.thread])
  {
    NothingBlanked(s.arr, 0);
  }

  /** No other step changes the table or sends anything. */
  lemma QuietBalanced(s: State, turn: Turn)
    requires WellFormed(s) && Acceptable(turn, |s.pcs|) && Enabled(s, turn.thread)
    requires var pc := s.pcs[turn.thread]; !pc.WBlank? && !pc.WSend? && !pc.RSend?
    ensures Balanced(s.pcs[turn.thread], SeenAt(s, turn), Next(s, turn).pcs[turn.thread])
  {
    NothingBlanked(s.arr, 0);
    var pc := s.pcs[turn.thread];
    QuietPC(s, pc, turn.request);
    var s' := Next(s, turn);
    assert s'.arr == s.arr && s'.replies == s.replies && s'.copies == s.copies;
  }

  lemma QuietPC(s: State, pc: PC, request: Request)
    requires |s.arr| == SIZE && InRange(pc) && !pc.WBlank? && !pc.WSend? && !pc.RSend?
    ensures var pc' := NextPC(s, pc, request);
            && InHand(pc') == InHand(pc) + (if pc == Idle && request != Unknown then [request] else [])
            && Owed(pc') == Owed(pc)
  {}

  lemma StepBalanced(s: State, turn: Turn)
    requires WellFormed(s) && Acceptable(turn, |s.pcs|) && Enabled(s, turn.thread)
    requires Local(s, s.pcs[turn.thread])
    ensures Balanced(s.pcs[turn.thread], SeenAt(s, turn), Next(s, turn).pcs[turn.thread])
  {
    var pc := s.pcs[turn.thread];
    if pc.WBlank? {
      BlankBalanced(s, turn);
    } else if pc.WSend? || pc.RSend? {
      SendBalanced(s, turn);
    } else {
      QuietBalanced(s, turn);
    }
  }

  lemma StillBalanced(pc: PC, now: Seen, pc': PC, later: Seen, pc'': PC)
    requires Balanced(pc, now, pc') && Balanced(pc', later, pc'')
    ensures Balanced(pc, Followed(now, later), pc'')
  {
    Shift(InHand(pc), now.taken, later.taken, now.answered, InHand(pc'), later.answered, InHand(pc''));
    Shift(Owed(pc), now.blanked, later.blanked, now.granted, Owed(pc'), later.granted, Owed(pc''));
  }

  lemma Shift<T>(hand: seq<T>, ins: seq<T>, later: seq<T>, outs: seq<T>, hand': seq<T>, after: seq<T>, last: seq<T>)
    requires hand + ins == outs + hand' && hand' + later == after + last
    ensures hand + (ins + later) == outs + after + last
  {
    assert hand + (ins + later) == hand + ins + later == outs + (hand' + later);
  }

  lemma TurnBalanced(s: State, turn: Turn)
    requires WellFormed(s) && Acceptable(turn, |s.pcs|) && Local(s, s.pcs[turn.thread])
    ensures Balanced(s.pcs[turn.thread], SeenAt(s, turn), After(s, turn).pcs[turn.thread])
  {
    if Enabled(s, turn.thread) {
      StepBalanced(s, turn);
    } else {
      NothingBlanked(s.arr, 0);
    }
  }

  lemma AfterTurn(s: State, turn: Turn)
    requires Inv(s) && Acceptable(turn, |s.pcs|)
    ensures Inv(After(s, turn)) && Local(s, s.pcs[turn.thread])
    ensures forall t :: 0 <= t < |s.pcs| && t != turn.thread ==> After(s, turn).pcs[t] == s.pcs[t]
  {
    if Enabled(s, turn.thread) {
      StepKeepsInv(s, turn);
    }
  }

  lemma {:induction false} RunBalanced(s: State, turns: seq<Turn>, t: nat)
    requires Inv(s) && AllAcceptable(turns, |s.pcs|) && t < |s.pcs|
    ensures Balanced(s.pcs[t], Watch(s, turns, t), Exec(s, turns).pcs[t])
    decreases |turns|
  {
    if turns != [] {
      var turn := turns[0];
      assert Acceptable(turn, |s.pcs|);
      AfterTurn(s, turn);
      RunBalanced(After(s, turn), turns[1..], t);
      if turn.thread == t {
        TurnBalanced(s, turn);
        StillBalanced(s.pcs[t], SeenAt(s, turn), After(s, turn).pcs[t],
                      Watch(After(s, turn), turns[1..], t), Exec(s, turns).pcs[t]);
      }
    }
  }

  /** In every run the requests that a thread has taken are, in order, those it has
      answered, each write with the letter it asks for, and at most one more; and the
      cells it has made blank are those of the letters it has answered with OK, and
      at most one more. When it is idle both lists are the same. */
  lemma RequestsAnswered(s: State, turns: seq<Turn>, t: nat)
    requires Initial(s) && AllAcceptable(turns, |s.pcs|) && t < |s.pcs|
    ensures var seen := Watch(s, turns, t);
            && seen.answered <= seen.taken && |seen.taken| <= |seen.answered| + 1
            && seen.granted <= seen.blanked && |seen.blanked| <= |seen.granted| + 1
            && (Exec(s, turns).pcs[t] == Idle ==> seen.taken == seen.answered && seen.blanked == seen.granted)
  {
    InitialInv(s);
    RunBalanced(s, turns, t);
    var seen := Watch(s, turns, t);
    assert [] + seen.taken == seen.taken && [] + seen.blanked == seen.blanked;
  }

  // ---- A letter is refused exactly if it has been granted before ----

  /** One of the first n replies grants the letter. */
  predicate GrantedIn(replies: seq<Reply>, n: nat, index: nat)
    requires n <= |replies|
  {
    exists k :: 0 <= k < n && replies[k].status == OK && replies[k].index == index
  }

  predicate FirstComes(replies: seq<Reply>) {
    forall k :: 0 <= k < |replies| ==> (replies[k].status == OK <==> !GrantedIn(replies, k, replies[k].index))
  }

  predicate OwedNow(pcs: seq<PC>, index: nat) {
    exists t :: 0 <= t < |pcs| && Owes(pcs[t]) && pcs[t].index == index
  }

  /** The letter of a blank cell has been granted, or its OK is on the way. */
  predicate Accounted(s: State)
    requires |s.arr| == SIZE
  {
    forall i :: 0 <= i < SIZE && s.arr[i] == ' ' ==> GrantedIn(s.replies, |s.replies|, i) || OwedNow(s.pcs, i)
  }

  lemma GrantStays(replies: seq<Reply>, reply: Reply, n: nat, index: nat)
    requires n <= |replies|
    ensures GrantedIn(replies + [reply], n, index) <==> GrantedIn(replies, n, index)
    ensures GrantedIn(replies + [reply], |replies| + 1, index)
       <==> GrantedIn(replies, |replies|, index) || (reply.status == OK && reply.index == index)
  {
    if reply.status == OK && reply.index == index {
      assert (replies + [reply])[|replies|] == reply;
    }
    if GrantedIn(replies, n, index) {
      var k :| 0 <= k < n && replies[k].status == OK && replies[k].index == index;
      assert (replies + [reply])[k] == replies[k];
    }
    if GrantedIn(replies, |replies|, index) {
      var k :| 0 <= k < |replies| && replies[k].status == OK && replies[k].index == index;
      assert (replies + [reply])[k] == replies[k];
    }
  }

  /** A refusal is sent only by a writer, who is alone: no OK is on the way. */
  lemma ReplyFirstComes(s: State, t: nat)
    requires Inv(s) && Accounted(s) && FirstComes(s.replies) && t < |s.pcs| && s.pcs[t].WSend?
    ensures var pc := s.pcs[t]; FirstComes(s.replies + [Reply(pc.index, pc.status, pc.full)])
  {
    var pc := s.pcs[t];
    var reply := Reply(pc.index, pc.status, pc.full);
    assert Local(s, pc) && NewlyGranted(pc, s.replies, s.grants);
    NobodyElseOwes(s, t);
    forall k | 0 <= k <= |s.replies|
      ensures var r := (s.replies + [reply])[k];
              r.status == OK <==> !GrantedIn(s.replies + [reply], k, r.index)
    {
      GrantStays(s.replies, reply, k, (s.replies + [reply])[k].index);
    }
  }

  lemma NobodyElseOwes(s: State, t: nat)
    requires Inv(s) && t < |s.pcs| && Writes(s.pcs[t])
    ensures forall u :: 0 <= u < |s.pcs| && u != t ==> !Owes(s.pcs[u])
  {
    WriterAlone(Letters, s.sems, s.pcs, t, Reading, Writing);
    forall u | 0 <= u < |s.pcs| && u != t
      ensures !Owes(s.pcs[u])
    {
      assert Writing(s.pcs[u]) == 0;
    }
  }

  lemma OwedStays(s: State, turn: Turn, i: nat)
    requires WellFormed(s) && Acceptable(turn, |s.pcs|) && Enabled(s, turn.thread)
    requires OwedNow(s.pcs, i)
    ensures var pc := s.pcs[turn.thread];
            OwedNow(Next(s, turn).pcs, i) || (pc.WSend? && pc.status == OK && pc.index == i)
  {
    var t :| 0 <= t < |s.pcs| && Owes(s.pcs[t]) && s.pcs[t].index == i;
    var s' := Next(s, turn);
    if t != turn.thread {
      assert s'.pcs[t] == s.pcs[t];
    } else if s.pcs[t].WScan? {
      assert Owes(s'.pcs[t]) && s'.pcs[t].index == i;
    }
  }

  lemma AccountedKept(s: State, turn: Turn)
    requires WellFormed(s) && Accounted(s) && Acceptable(turn, |s.pcs|) && Enabled(s, turn.thread)
    ensures Accounted(Next(s, turn))
  {
    var s' := Next(s, turn);
    LedgerMove(s, turn);
    forall i | 0 <= i < SIZE && s'.arr[i] == ' '
      ensures GrantedIn(s'.replies, |s'.replies|, i) || OwedNow(s'.pcs, i)
    {
      var pc := s.pcs[turn.thread];
      if pc.WBlank? && i == pc.index {
        assert Owes(s'.pcs[turn.thread]) && s'.pcs[turn.thread].index == i;
      } else {
        assert s.arr[i] == ' ';
        if OwedNow(s.pcs, i) {
          OwedStays(s, turn, i);
        }
        if pc.WSend? {
          GrantStays(s.replies, Reply(pc.index, pc.status, pc.full), 0, i);
        }
      }
    }
  }

  lemma {:induction false} RunFirstComes(s: State, turns: seq<Turn>)
    requires Inv(s) && Accounted(s) && FirstComes(s.replies) && AllAcceptable(turns, |s.pcs|)
    ensures FirstComes(Exec(s, turns).replies)
    decreases |turns|
  {
    if turns != [] {
      var turn := turns[0];
      assert Acceptable(turn, |s.pcs|);
      if Enabled(s, turn.thread) {
        AfterTurn(s, turn);
        AccountedKept(s, turn);
        LedgerMove(s, turn);
        if s.pcs[turn.thread].WSend? {
          ReplyFirstComes(s, turn.thread);
        }
      }
      RunFirstComes(After(s, turn), turns[1..]);
    }
  }

  /** In every run the first reply for a letter is an OK and every later one refuses
      it: a letter is refused if and only if an earlier reply has granted it. */
  lemma RefusedIff(s: State, turns: seq<Turn>)
    requires Initial(s) && AllAcceptable(turns, |s.pcs|)
    ensures var replies := Exec(s, turns).replies;
            forall k :: 0 <= k < |replies| ==>
              (replies[k].status == AlreadyReserved <==>
               exists j :: 0 <= j < k && replies[j].status == OK && replies[j].index == replies[k].index)
  {
    InitialInv(s);
    RunFirstComes(s, turns);
    var replies := Exec(s, turns).replies;
    forall k | 0 <= k < |replies|
      ensures replies[k].status == AlreadyReserved
         <==> exists j :: 0 <= j < k && replies[j].status == OK && replies[j].index == replies[k].index
    {
      assert replies[k].status == OK <==> !GrantedIn(replies, k, replies[k].index);
    }
  }

  // ---- A request that has been let in comes to its end ----

  /** The own turns until a thread is idle again, from its start call on, at most. */
  function Left(pc: PC): nat
    requires InRange(pc)
  {
    match pc
    case RStart => SIZE + 4
    case WStart(_) => SIZE + 6
    case RCopy(buf) => SIZE - |buf| + 3
    case RSend(_) => 2
    case RStop => 1
    case WTest(_) => SIZE + 5
    case WBlank(_) => SIZE + 4
    case WRetest(_) => SIZE + 4
    case WScan(i, _, _, _) => SIZE - i + 3
    case WSend(_, _, _) => 2
    case WStop => 1
    case _ => 0
  }

  /** At some moment of the run, thread t is idle. */
  predicate ComesToIdle(s: State, turns: seq<Turn>, t: nat)
    requires WellFormed(s) && AllAcceptable(turns, |s.pcs|) && t < |s.pcs|
    decreases |turns|
  {
    s.pcs[t] == Idle || (turns != [] && assert Acceptable(turns[0], |s.pcs|);
                         ComesToIdle(After(s, turns[0]), turns[1..], t))
  }

  function Threads(turns: seq<Turn>): (r: seq<nat>)
    ensures |r| == |turns| && forall k :: 0 <= k < |r| ==> r[k] == turns[k].thread
  {
    seq(|turns|, k requires 0 <= k < |turns| => turns[k].thread)
  }

  lemma OneTurnLess(s: State, turn: Turn)
    requires WellFormed(s) && Acceptable(turn, |s.pcs|) && s.pcs[turn.thread] != Idle
    requires Enabled(s, turn.thread)
    ensures var pc, pc' := s.pcs[turn.thread], Next(s, turn).pcs[turn.thread];
            Left(pc') < Left(pc) && (pc' == Idle || Reads(pc') || Writes(pc'))
  {}

  /** Whatever the others do, a thread that is inside, or whose start call goes
      through now, is idle again after at most that many turns of its own, and never
      more than 26. */
  lemma {:induction false} RequestEnds(s: State, turns: seq<Turn>, t: nat)
    requires Inv(s) && AllAcceptable(turns, |s.pcs|) && t < |s.pcs| && s.pcs[t] != Idle
    requires Reads(s.pcs[t]) || Writes(s.pcs[t]) || (turns != [] && turns[0].thread == t && Enabled(s, t))
    requires TurnsOf(Threads(turns), t) >= Left(s.pcs[t])
    ensures ComesToIdle(s, turns, t) && Left(s.pcs[t]) <= 26
    decreases |turns|
  {
    var turn := turns[0];
    assert Acceptable(turn, |s.pcs|);
    AfterTurn(s, turn);
    assert Threads(turns)[1..] == Threads(turns[1..]);
    if turn.thread == t {
      LockAdmits(s, t);
      OneTurnLess(s, turn);
    }
    if After(s, turn).pcs[t] != Idle {
      RequestEnds(After(s, turn), turns[1..], t);
    }
  }
}
