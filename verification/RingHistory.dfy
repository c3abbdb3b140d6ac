/** What the clients of the threaded buffer server get for what they ask
    (lab_sockets/lab_03/lab_03/server_1.c), watched from outside: the requests
    that a thread takes and the letters it stores and loads. */
module RingHistory {
  import opened RingServer
  import opened Tally

  function After(s: State, turn: Turn): (r: State)
    requires WellFormed(s) && turn.thread < |s.pcs|
    ensures WellFormed(r) && |r.pcs| == |s.pcs|
  {
    if Enabled(s, turn.thread) then Next(s, turn) else s
  }

  predicate AllInRange(turns: seq<Turn>, threads: nat) {
    forall k :: 0 <= k < |turns| ==> turns[k].thread < threads
  }

  /** Requests taken and requests carried out, each in order. */
  datatype Seen = Seen(taken: seq<Request>, done: seq<Request>)

  /** One turn: a request is taken by an idle thread; a letter that is stored is a
      put carried out, and a letter that is loaded a get. */
  function SeenAt(s: State, turn: Turn): Seen
    requires WellFormed(s) && turn.thread < |s.pcs|
  {
    var s' := After(s, turn);
    Seen(
      if s.pcs[turn.thread] == Idle && turn.request != Unknown then [turn.request] else [],
      if |s'.puts| > |s.puts| then [Put(s'.puts[|s.puts|])]
      else if |s'.gots| > |s.gots| then [Get] else [])
  }

  /** What the turns of thread t show in a run. */
  function Watch(s: State, turns: seq<Turn>, t: nat): Seen
    requires WellFormed(s) && AllInRange(turns, |s.pcs|) && t < |s.pcs|
    decreases |turns|
  {
    if turns == [] then Seen([], [])
    else
      var later := Watch(After(s, turns[0]), turns[1..], t);
      if turns[0].thread != t then later
      else var now := SeenAt(s, turns[0]); Seen(now.taken + later.taken, now.done + later.done)
  }

  /** The request that a thread has taken and not carried out yet. */
  function InHand(pc: PC): seq<Request> {
    match pc
    case PStart(c) => [Put(c)]
    case PStore(c) => [Put(c)]
    case CStart => [Get]
    case CLoad => [Get]
    case _ => []
  }

  lemma TurnBalanced(s: State, turn: Turn)
    requires WellFormed(s) && turn.thread < |s.pcs|
    ensures InHand(s.pcs[turn.thread]) + SeenAt(s, turn).taken
            == SeenAt(s, turn).done + InHand(After(s, turn).pcs[turn.thread])
  {}

  lemma {:induction false} RunBalanced(s: State, turns: seq<Turn>, t: nat)
    requires WellFormed(s) && AllInRange(turns, |s.pcs|) && t < |s.pcs|
    ensures var seen := Watch(s, turns, t);
            InHand(s.pcs[t]) + seen.taken == seen.done + InHand(Exec(s, turns).pcs[t])
    decreases |turns|
  {
    if turns != [] {
      var turn, s' := turns[0], After(s, turns[0]);
      var now, later := SeenAt(s, turn), Watch(s', turns[1..], t);
      RunBalanced(s', turns[1..], t);
      if turn.thread == t {
        TurnBalanced(s, turn);
        Shift(InHand(s.pcs[t]), now.taken, later.taken, now.done, InHand(s'.pcs[t]), later.done,
              InHand(Exec(s, turns).pcs[t]));
      }
    }
  }

  lemma Shift<T>(hand: seq<T>, ins: seq<T>, later: seq<T>, outs: seq<T>, hand': seq<T>, after: seq<T>, last: seq<T>)
    requires hand + ins == outs + hand' && hand' + later == after + last
    ensures hand + (ins + later) == outs + after + last
  {
    assert hand + (ins + later) == hand + ins + later == outs + (hand' + later);
  }

  /** In every run the requests that a thread has taken are, in order, those it has
      carried out, each put with the letter it was sent, and at most one more. */
  lemma RequestsCarriedOut(s: State, turns: seq<Turn>, t: nat)
    requires Initial(s) && AllInRange(turns, |s.pcs|) && t < |s.pcs|
    ensures var seen := Watch(s, turns, t);
            && seen.done <= seen.taken && |seen.taken| <= |seen.done| + 1
            && (Exec(s, turns).pcs[t] == Idle ==> seen.taken == seen.done)
  {
    RunBalanced(s, turns, t);
    var seen := Watch(s, turns, t);
    assert [] + seen.taken == seen.taken;
  }

  // ---- A request that has been let in comes to its end ----

  /** The own turns until a thread is idle again, from its start call on. */
  function Left(pc: PC): nat {
    match pc
    case PStart(_) => 5
    case CStart => 5
    case PStore(_) => 4
    case PLoadTail => 3
    case PStoreTail(_) => 2
    case PStop => 1
    case CLoad => 4
    case CLoadHead => 3
    case CStoreHead(_) => 2
    case CStop => 1
    case _ => 0
  }

  /** At some moment of the run, thread t is idle. */
  predicate ComesToIdle(s: State, turns: seq<Turn>, t: nat)
    requires WellFormed(s) && AllInRange(turns, |s.pcs|) && t < |s.pcs|
    decreases |turns|
  {
    s.pcs[t] == Idle || (turns != [] && ComesToIdle(After(s, turns[0]), turns[1..], t))
  }

  function Threads(turns: seq<Turn>): (r: seq<nat>)
    ensures |r| == |turns| && forall k :: 0 <= k < |r| ==> r[k] == turns[k].thread
  {
    seq(|turns|, k requires 0 <= k < |turns| => turns[k].thread)
  }

  /** Whatever the others do, a thread that is inside, or whose start call goes
      through now, is idle again after that many turns of its own, at most five. */
  lemma {:induction false} RequestEnds(s: State, turns: seq<Turn>, t: nat)
    requires WellFormed(s) && AllInRange(turns, |s.pcs|) && t < |s.pcs| && s.pcs[t] != Idle
    requires Inside(s.pcs[t]) == 1 || (turns != [] && turns[0].thread == t && Enabled(s, t))
    requires TurnsOf(Threads(turns), t) >= Left(s.pcs[t])
    ensures ComesToIdle(s, turns, t) && Left(s.pcs[t]) <= 5
    decreases |turns|
  {
    var turn := turns[0];
    assert Threads(turns)[1..] == Threads(turns[1..]);
    if turn.thread == t {
      OwnTurn(s, turn);
    }
    if After(s, turn).pcs[t] != Idle {
      RequestEnds(After(s, turn), turns[1..], t);
    }
  }

  lemma OwnTurn(s: State, turn: Turn)
    requires WellFormed(s) && turn.thread < |s.pcs| && s.pcs[turn.thread] != Idle
    requires Inside(s.pcs[turn.thread]) == 1 || Enabled(s, turn.thread)
    ensures var pc, pc' := s.pcs[turn.thread], After(s, turn).pcs[turn.thread];
            Left(pc') == Left(pc) - 1 && (pc' == Idle || Inside(pc') == 1)
  {
    if Inside(s.pcs[turn.thread]) == 1 {
      InsideGoesOn(s, turn.thread);
    }
  }
}
